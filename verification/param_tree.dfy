/** The parameters of a configuration file: a binary search tree of nodes on the heap, under a dummy
    root, with names that are compared on their first 80 characters. */
module ParamTrees {
  import opened Strings

  const UCFG_MAX_PARAM_NAME_LEN := 80
  const UCFG_PARAM_DUPLICATED := -8
  const ROOT_NAME := "Master - dummy\t"

  /** A list of values, by its address. */
  type Val = nat

  /** strcmp() */
  function Compare(a: string, b: string): int {
    if a == "" then (if b == "" then 0 else -1)
    else if b == "" then 1
    else if a[0] < b[0] then -1
    else if a[0] > b[0] then 1
    else Compare(a[1..], b[1..])
  }

  /** What strncmp() looks at. */
  function Key(id: string): string {
    if |id| <= UCFG_MAX_PARAM_NAME_LEN then id else id[..UCFG_MAX_PARAM_NAME_LEN]
  }

  lemma {:induction false} CompareEqual(a: string, b: string)
    ensures Compare(a, b) == 0 <==> a == b
  {
    if a != "" && b != "" && a[0] == b[0] {
      CompareEqual(a[1..], b[1..]);
      assert a == [a[0]] + a[1..] && b == [b[0]] + b[1..];
    }
  }

  class ParamNode {
    const id_param: string
    var val_list: Option<Val>
    var p_left: ParamNode?
    var p_right: ParamNode?

    constructor (id: string, val: Option<Val>)
      ensures id_param == id && val_list == val && p_left == null && p_right == null
    {
      id_param, val_list, p_left, p_right := id, val, null, null;
    }
  }

  // ----- Trees as values: the fields of the nodes, and the shape that they make

  datatype Cell<K> = Cell(left: ParamNode?, right: ParamNode?, key: K)

  datatype Tree = Leaf | Branch(l: Tree, node: ParamNode, r: Tree)

  function Refs(t: Tree): set<ParamNode> {
    match t
    case Leaf => {}
    case Branch(l, n, r) => Refs(l) + {n} + Refs(r)
  }

  /** The nodes linked from n make the tree t. */
  predicate Mirrors<K>(h: map<ParamNode, Cell<K>>, n: ParamNode?, t: Tree) {
    match t
    case Leaf => n == null
    case Branch(l, m, r) => n == m && m in h && Mirrors(h, h[m].left, l) && Mirrors(h, h[m].right, r)
  }

  predicate Distinct(t: Tree) {
    match t
    case Leaf => true
    case Branch(l, n, r) => n !in Refs(l) && n !in Refs(r) && Refs(l) !! Refs(r) && Distinct(l) && Distinct(r)
  }

  function Size(t: Tree): nat {
    match t
    case Leaf => 0
    case Branch(l, _, r) => Size(l) + 1 + Size(r)
  }

  function NameOf(h: map<ParamNode, Cell<string>>, n: ParamNode): string { if n in h then h[n].key else "" }

  ghost predicate Ordered(h: map<ParamNode, Cell<string>>, t: Tree) {
    match t
    case Leaf => true
    case Branch(l, n, r) =>
      && (forall x :: x in Refs(l) ==> Compare(NameOf(h, x), NameOf(h, n)) < 0)
      && (forall x :: x in Refs(r) ==> Compare(NameOf(h, n), NameOf(h, x)) < 0)
      && Ordered(h, l) && Ordered(h, r)
  }

  datatype Hit = Found(node: ParamNode) | Missing(parent: ParamNode, left: bool)

  /** Where the search for k ends: on a node, or on an empty side of one. */
  function Search(h: map<ParamNode, Cell<string>>, t: Tree, k: string, parent: ParamNode, left: bool): Hit {
    match t
    case Leaf => Missing(parent, left)
    case Branch(l, n, r) =>
      var c := Compare(k, NameOf(h, n));
      if c < 0 then Search(h, l, k, n, true)
      else if c > 0 then Search(h, r, k, n, false)
      else Found(n)
  }

  /** The tree with a new node where the search for k ends. */
  function Grown(h: map<ParamNode, Cell<string>>, t: Tree, k: string, new_: ParamNode): Tree {
    match t
    case Leaf => Branch(Leaf, new_, Leaf)
    case Branch(l, n, r) =>
      var c := Compare(k, NameOf(h, n));
      if c < 0 then Branch(Grown(h, l, k, new_), n, r)
      else if c > 0 then Branch(l, n, Grown(h, r, k, new_))
      else t
  }

  /** In an ordered tree the search is right: it finds the node of that name, or there is none. */
  lemma {:induction false} SearchIsRight(h: map<ParamNode, Cell<string>>, t: Tree, k: string, parent: ParamNode,
      left: bool)
    requires Ordered(h, t)
    ensures match Search(h, t, k, parent, left)
            case Found(n) => n in Refs(t) && NameOf(h, n) == k
            case Missing(p, _) =>
              && (p in Refs(t) || (t == Leaf && p == parent))
              && forall x :: x in Refs(t) ==> NameOf(h, x) != k
  {
    match t
    case Leaf =>
    case Branch(l, n, r) =>
      CompareEqual(k, NameOf(h, n));
      var c := Compare(k, NameOf(h, n));
      if c < 0 {
        SearchIsRight(h, l, k, n, true);
        forall x | x in Refs(r) ensures NameOf(h, x) != k { if NameOf(h, x) == k { CompareBothWays(k, NameOf(h, n)); } }
      } else if c > 0 {
        SearchIsRight(h, r, k, n, false);
        forall x | x in Refs(l) ensures NameOf(h, x) != k { if NameOf(h, x) == k { CompareBothWays(k, NameOf(h, n)); } }
      }
  }

  lemma {:induction false} CompareBothWays(a: string, b: string)
    ensures Compare(a, b) < 0 <==> Compare(b, a) > 0
  {
    if a != "" && b != "" && a[0] == b[0] { CompareBothWays(a[1..], b[1..]); }
  }

  lemma {:induction false} GrownRefs(h: map<ParamNode, Cell<string>>, t: Tree, k: string, new_: ParamNode)
    requires Distinct(t) && new_ !in Refs(t)
    requires forall x :: x in Refs(t) ==> NameOf(h, x) != k
    ensures Refs(Grown(h, t, k, new_)) == Refs(t) + {new_} && Distinct(Grown(h, t, k, new_))
  {
    match t
    case Leaf =>
    case Branch(l, n, r) =>
      CompareEqual(k, NameOf(h, n));
      GrownRefs(h, l, k, new_);
      GrownRefs(h, r, k, new_);
  }

  /** Only the link of the parent, and the new node, differ. */
  predicate LinkedAt(h: map<ParamNode, Cell<string>>, h': map<ParamNode, Cell<string>>, p: ParamNode, left: bool,
                     new_: ParamNode) {
    && p in h && new_ !in h
    && h'.Keys == h.Keys + {new_}
    && (forall x :: x in h && x != p ==> h'[x] == h[x])
    && h'[p] == (if left then h[p].(left := new_) else h[p].(right := new_))
    && h'[new_].left == null && h'[new_].right == null
  }

  lemma {:induction false} MirrorsFrame(h: map<ParamNode, Cell<string>>, h': map<ParamNode, Cell<string>>,
                                        n: ParamNode?, t: Tree)
    requires Mirrors(h, n, t) && forall x :: x in Refs(t) ==> x in h && x in h' && h'[x] == h[x]
    ensures Mirrors(h', n, t)
  {
    match t
    case Leaf =>
    case Branch(l, m, r) =>
      MirrorsFrame(h, h', h[m].left, l);
      MirrorsFrame(h, h', h[m].right, r);
  }

  lemma {:induction false} MirrorsKnown(h: map<ParamNode, Cell<string>>, n: ParamNode?, t: Tree)
    requires Mirrors(h, n, t)
    ensures Refs(t) <= h.Keys
  {
    match t
    case Leaf =>
    case Branch(l, m, r) =>
      MirrorsKnown(h, h[m].left, l);
      MirrorsKnown(h, h[m].right, r);
  }

  /** Linking the new node where the search ended grows the tree there. */
  lemma {:induction false} LinkGrows(h: map<ParamNode, Cell<string>>, h': map<ParamNode, Cell<string>>,
                                     n: ParamNode?, t: Tree, k: string,
                                     p: ParamNode, left: bool, new_: ParamNode, p0: ParamNode, left0: bool)
    requires t.Branch? && Mirrors(h, n, t) && Distinct(t) && Ordered(h, t)
    requires Search(h, t, k, p0, left0) == Missing(p, left) && LinkedAt(h, h', p, left, new_)
    ensures Mirrors(h', n, Grown(h, t, k, new_))
  {
    var Branch(l, m, r) := t;
    MirrorsKnown(h, n, t);
    if Compare(k, NameOf(h, m)) < 0 {
      SearchIsRight(h, l, k, m, true);
      if l.Branch? {
        LinkGrows(h, h', h[m].left, l, k, p, left, new_, m, true);
      }
      MirrorsFrame(h, h', h[m].right, r);
    } else {
      SearchIsRight(h, r, k, m, false);
      if r.Branch? {
        LinkGrows(h, h', h[m].right, r, k, p, left, new_, m, false);
      }
      MirrorsFrame(h, h', h[m].left, l);
    }
  }

  lemma {:induction false} OrderedFrame(h: map<ParamNode, Cell<string>>, h': map<ParamNode, Cell<string>>, t: Tree)
    requires Ordered(h, t) && forall x :: x in Refs(t) ==> NameOf(h', x) == NameOf(h, x)
    ensures Ordered(h', t)
  {
    match t
    case Leaf =>
    case Branch(l, m, r) =>
      OrderedFrame(h, h', l);
      OrderedFrame(h, h', r);
  }

  /** And keeps it ordered. */
  lemma {:induction false} GrownOrdered(h: map<ParamNode, Cell<string>>, h': map<ParamNode, Cell<string>>, t: Tree,
                                        k: string, new_: ParamNode)
    requires Ordered(h, t) && Distinct(t) && new_ !in Refs(t)
    requires forall x :: x in Refs(t) ==> NameOf(h, x) != k && NameOf(h', x) == NameOf(h, x)
    requires NameOf(h', new_) == k
    ensures Ordered(h', Grown(h, t, k, new_))
  {
    match t
    case Leaf =>
    case Branch(l, m, r) =>
      CompareEqual(k, NameOf(h, m));
      CompareBothWays(NameOf(h, m), k);
      GrownRefs(h, l, k, new_);
      GrownRefs(h, r, k, new_);
      if Compare(k, NameOf(h, m)) < 0 {
        GrownOrdered(h, h', l, k, new_);
        OrderedFrame(h, h', r);
      } else {
        GrownOrdered(h, h', r, k, new_);
        OrderedFrame(h, h', l);
      }
  }

  // ----- What the tree refines

  ghost predicate Shaped(h: map<ParamNode, Cell<string>>, root: ParamNode, t: Tree) {
    && t.Branch? && t.node == root && root in h
    && h.Keys == Refs(t) && Mirrors(h, root, t) && Distinct(t) && Ordered(h, t)
  }

  // These facts do not depend on what the names are.

  function Get<K>(params: map<K, Val>, k: K): Option<Val> {
    if k in params then Some(params[k]) else None
  }

  function TreeNames<K>(h: map<ParamNode, Cell<K>>, t: Tree): set<K> {
    match t
    case Leaf => {}
    case Branch(l, n, r) => TreeNames(h, l) + (if n in h then {h[n].key} else {}) + TreeNames(h, r)
  }

  lemma {:induction false} NotANode<K>(h: map<ParamNode, Cell<K>>, t: Tree, k: K)
    requires forall x :: x in Refs(t) && x in h ==> h[x].key != k
    ensures k !in TreeNames(h, t)
  {
    match t
    case Leaf =>
    case Branch(l, n, r) =>
      NotANode(h, l, k);
      NotANode(h, r, k);
  }

  lemma {:induction false} SameTreeNames<K>(h: map<ParamNode, Cell<K>>, h': map<ParamNode, Cell<K>>, t: Tree)
    requires forall x :: x in Refs(t) ==> x in h && x in h' && h'[x].key == h[x].key
    ensures TreeNames(h', t) == TreeNames(h, t)
  {
    match t
    case Leaf =>
    case Branch(l, n, r) =>
      SameTreeNames(h, h', l);
      SameTreeNames(h, h', r);
  }

  /** Each node has the value of its name, and every name that has one has a node; only the root may
      have no value. */
  ghost predicate Refines<K(!new)>(h: map<ParamNode, Cell<K>>, vals: map<ParamNode, Option<Val>>, root: ParamNode,
                                   names: set<K>, params: map<K, Val>) {
    && vals.Keys == h.Keys && params.Keys <= names
    && (forall x :: x in h ==> vals[x] == Get(params, h[x].key) && (x != root ==> vals[x].Some?))
  }

  ghost predicate NamesDiffer<K(!new)>(h: map<ParamNode, Cell<K>>, n: ParamNode) {
    n in h && forall x :: x in h && x != n ==> h[x].key != h[n].key
  }

  lemma ValueSet<K(!new)>(h: map<ParamNode, Cell<K>>, vals: map<ParamNode, Option<Val>>, root: ParamNode,
                    names: set<K>, params: map<K, Val>, n: ParamNode, v: Val)
    requires Refines(h, vals, root, names, params) && root in h && NamesDiffer(h, n) && h[n].key in names
    ensures Refines(h, vals[n := Some(v)], root, names, params[h[n].key := v])
  {}

  lemma NodeRefines<K(!new)>(h: map<ParamNode, Cell<K>>, h': map<ParamNode, Cell<K>>, vals: map<ParamNode,
                      Option<Val>>, root: ParamNode,
                       names: set<K>, params: map<K, Val>, k: K, new_: ParamNode, v: Val)
    requires Refines(h, vals, root, names, params) && k !in names
    requires new_ !in h && h'.Keys == h.Keys + {new_} && h'[new_].key == k
    requires forall x :: x in h ==> h[x].key != k && h'[x].key == h[x].key
    ensures Refines(h', vals[new_ := Some(v)], root, names + {k}, params[k := v])
  {}

  lemma OneNode(root: ParamNode, id: string)
    ensures Shaped(map[root := Cell(null, null, id)], root, Branch(Leaf, root, Leaf))
    ensures TreeNames(map[root := Cell(null, null, id)], Branch(Leaf, root, Leaf)) == {id}
  {}

  lemma OneValue<K(!new)>(h: map<ParamNode, Cell<K>>, root: ParamNode, k: K, v: Option<Val>, params: map<K, Val>)
    requires h.Keys == {root} && h[root].key == k
    requires params == if v == None then map[] else map[k := v.value]
    ensures Refines(h, map[root := v], root, {k}, params)
  {}

  lemma FoundValue(h: map<ParamNode, Cell<string>>, vals: map<ParamNode, Option<Val>>, root: ParamNode, t: Tree,
                   params: map<string, Val>, k: string)
    requires Shaped(h, root, t) && Refines(h, vals, root, TreeNames(h, t), params)
    ensures match Search(h, t, k, root, true)
            case Found(n) => n in h && h[n].key == k && vals[n] == Get(params, k)
            case Missing(p, _) => p in h && k !in params && k !in TreeNames(h, t)
  {
    SearchIsRight(h, t, k, root, true);
    if Search(h, t, k, root, true).Missing? { NotANode(h, t, k); }
  }

  /** The names of the grown tree. */
  lemma {:induction false} GrownNames(h: map<ParamNode, Cell<string>>, h': map<ParamNode, Cell<string>>, t: Tree,
                                      k: string, new_: ParamNode)
    requires forall x :: x in Refs(t) ==> x in h && x in h' && NameOf(h, x) != k && h'[x].key == h[x].key
    requires new_ in h' && h'[new_].key == k
    ensures TreeNames(h', Grown(h, t, k, new_)) == TreeNames(h, t) + {k}
    ensures Size(Grown(h, t, k, new_)) == Size(t) + 1
  {
    match t
    case Leaf =>
    case Branch(l, n, r) =>
      CompareEqual(k, NameOf(h, n));
      if Compare(k, NameOf(h, n)) < 0 {
        GrownNames(h, h', l, k, new_);
        SameTreeNames(h, h', r);
      } else {
        GrownNames(h, h', r, k, new_);
        SameTreeNames(h, h', l);
      }
  }

  lemma NodeAdded(h: map<ParamNode, Cell<string>>, h': map<ParamNode, Cell<string>>, root: ParamNode,
                  t: Tree, k: string, p: ParamNode, left: bool, new_: ParamNode)
    requires Shaped(h, root, t) && Search(h, t, k, root, true) == Missing(p, left)
    requires LinkedAt(h, h', p, left, new_) && h'[new_].key == k
    ensures Shaped(h', root, Grown(h, t, k, new_))
    ensures TreeNames(h', Grown(h, t, k, new_)) == TreeNames(h, t) + {k}
    ensures Size(Grown(h, t, k, new_)) == Size(t) + 1
    ensures forall x :: x in h ==> h[x].key != k && h'[x].key == h[x].key
  {
    SearchIsRight(h, t, k, root, true);
    assert forall x :: x in h ==> NameOf(h', x) == NameOf(h, x) && NameOf(h, x) != k;
    GrownRefs(h, t, k, new_);
    LinkGrows(h, h', root, t, k, p, left, new_, root, true);
    GrownOrdered(h, h', t, k, new_);
    GrownNames(h, h', t, k, new_);
  }

  lemma {:induction false} NodeHasName(h: map<ParamNode, Cell<string>>, t: Tree, n: ParamNode)
    requires n in Refs(t) && n in h
    ensures h[n].key in TreeNames(h, t)
  {
    match t
    case Branch(l, m, r) =>
      if n in Refs(l) { NodeHasName(h, l, n); }
      if n in Refs(r) { NodeHasName(h, r, n); }
  }

  lemma {:induction false} NodeOfName(h: map<ParamNode, Cell<string>>, t: Tree, k: string) returns (x: ParamNode)
    requires k in TreeNames(h, t)
    ensures x in Refs(t) && x in h && h[x].key == k
  {
    var Branch(l, n, r) := t;
    if k in TreeNames(h, l) {
      x := NodeOfName(h, l, k);
    } else if k in TreeNames(h, r) {
      x := NodeOfName(h, r, k);
    } else {
      x := n;
    }
  }

  lemma NamesBelow(h: map<ParamNode, Cell<string>>, l: Tree, k: string, q: string)
    requires forall x :: x in Refs(l) ==> Compare(NameOf(h, x), k) < 0
    requires q in TreeNames(h, l)
    ensures Compare(q, k) < 0
  {
    var x := NodeOfName(h, l, q);
    assert NameOf(h, x) == q;
  }

  lemma NamesAbove(h: map<ParamNode, Cell<string>>, r: Tree, k: string, q: string)
    requires forall x :: x in Refs(r) ==> Compare(k, NameOf(h, x)) < 0
    requires q in TreeNames(h, r)
    ensures Compare(k, q) < 0
  {
    var x := NodeOfName(h, r, q);
    assert NameOf(h, x) == q;
  }

  lemma NamesApart(h: map<ParamNode, Cell<string>>, t: Tree)
    requires t.Branch? && Ordered(h, t)
    ensures TreeNames(h, t.l) !! TreeNames(h, t.r)
    ensures NameOf(h, t.node) !in TreeNames(h, t.l) && NameOf(h, t.node) !in TreeNames(h, t.r)
  {
    var k := NameOf(h, t.node);
    CompareEqual(k, k);
    if k in TreeNames(h, t.l) { NamesBelow(h, t.l, k, k); }
    if k in TreeNames(h, t.r) { NamesAbove(h, t.r, k, k); }
    forall q | q in TreeNames(h, t.l) ensures q !in TreeNames(h, t.r) {
      NamesBelow(h, t.l, k, q);
      CompareBothWays(q, k);
      if q in TreeNames(h, t.r) { NamesAbove(h, t.r, k, q); CompareBothWays(k, q); }
    }
  }

  lemma {:induction false} NamesAndSize(h: map<ParamNode, Cell<string>>, t: Tree)
    requires Ordered(h, t) && Refs(t) <= h.Keys
    ensures |TreeNames(h, t)| == Size(t)
  {
    match t
    case Leaf =>
    case Branch(l, n, r) =>
      NamesAndSize(h, l);
      NamesAndSize(h, r);
      NamesApart(h, t);
      assert TreeNames(h, t) == TreeNames(h, l) + {h[n].key} + TreeNames(h, r);
  }

  lemma NameHasValue(h: map<ParamNode, Cell<string>>, vals: map<ParamNode, Option<Val>>, root: ParamNode, t: Tree,
                     params: map<string, Val>, k: string)
    requires Refines(h, vals, root, TreeNames(h, t), params)
    requires root in h && k in TreeNames(h, t) && k != h[root].key
    ensures k in params
  {
    var x := NodeOfName(h, t, k);
    assert vals[x].Some?;
  }

  lemma WithoutOne<T>(a: set<T>, b: set<T>, x: T)
    requires a <= b && x in b && forall y :: y in b && y != x ==> y in a
    ensures |a - {x}| == |b| - 1
  {
    assert a - {x} == b - {x};
  }

  lemma NamesAreCounted(h: map<ParamNode, Cell<string>>, vals: map<ParamNode, Option<Val>>, root: ParamNode, t: Tree,
                        params: map<string, Val>)
    requires Shaped(h, root, t) && Refines(h, vals, root, TreeNames(h, t), params)
    ensures |params.Keys - {h[root].key}| == Size(t) - 1
  {
    NamesAndSize(h, t);
    NodeHasName(h, t, root);
    forall k | k in TreeNames(h, t) && k != h[root].key ensures k in params {
      NameHasValue(h, vals, root, t, params, k);
    }
    WithoutOne(params.Keys, TreeNames(h, t), h[root].key);
  }

  /** The links when a new node is linked on one side of p. */
  function Linked<K>(h: map<ParamNode, Cell<K>>, p: ParamNode, left: bool, new_: ParamNode, k: K): map<ParamNode,
                     Cell<K>>
    requires p in h
  {
    h[p := if left then h[p].(left := new_) else h[p].(right := new_)][new_ := Cell(null, null, k)]
  }

  lemma NewNodeLinked(h: map<ParamNode, Cell<string>>, vals: map<ParamNode, Option<Val>>, root: ParamNode, t: Tree,
                      params: map<string, Val>, k: string, p: ParamNode, left: bool, new_: ParamNode, v: Val)
    requires Shaped(h, root, t) && Refines(h, vals, root, TreeNames(h, t), params)
    requires Search(h, t, k, root, true) == Missing(p, left) && p in h && new_ !in h
    ensures var h', t' := Linked(h, p, left, new_, k), Grown(h, t, k, new_);
            && Shaped(h', root, t') && Size(t') == Size(t) + 1
            && Refines(h', vals[new_ := Some(v)], root, TreeNames(h', t'), params[k := v])
  {
    var h' := Linked(h, p, left, new_, k);
    NodeAdded(h, h', root, t, k, p, left, new_);
    NotANode(h, t, k);
    NodeRefines(h, h', vals, root, TreeNames(h, t), params, k, new_, v);
  }

  // ----- The tree on the heap

  /** h and vals are what is in the fields of the nodes. */
  ghost predicate Agrees<K>(h: map<ParamNode, Cell<K>>, vals: map<ParamNode, Option<Val>>)
    reads h.Keys
  {
    && vals.Keys == h.Keys
    && forall n :: n in h ==> n.p_left == h[n].left && n.p_right == h[n].right && n.val_list == vals[n]
  }

  predicate Named(h: map<ParamNode, Cell<string>>) {
    forall n :: n in h ==> NameOf(h, n) == Key(n.id_param)
  }

  lemma LinkedNamed(h: map<ParamNode, Cell<string>>, p: ParamNode, left: bool, new_: ParamNode)
    requires Named(h) && p in h && new_ !in h
    ensures Named(Linked(h, p, left, new_, Key(new_.id_param)))
  {
    var h' := Linked(h, p, left, new_, Key(new_.id_param));
    forall n | n in h' ensures NameOf(h', n) == Key(n.id_param) {
      if n != new_ { assert NameOf(h', n) == NameOf(h, n); }
    }
  }

  method NewNode<K>(p_prev: ParamNode, left: bool, id: string, val: Val, ghost h: map<ParamNode, Cell<K>>,
                    ghost vals: map<ParamNode, Option<Val>>, ghost k: K) returns (p_new: ParamNode)
    requires Agrees(h, vals) && p_prev in h
    modifies p_prev`p_left, p_prev`p_right
    ensures fresh(p_new) && p_new !in h && p_new.id_param == id
    ensures Agrees(Linked(h, p_prev, left, p_new, k), vals[p_new := Some(val)])
  {
    p_new := new ParamNode(id, Some(val));
    if left { p_prev.p_left := p_new; } else { p_prev.p_right := p_new; }
  }

  method SetValue<K>(n: ParamNode, val: Val, ghost h: map<ParamNode, Cell<K>>, ghost vals: map<ParamNode, Option<Val>>)
    requires Agrees(h, vals) && n in h
    modifies n`val_list
    ensures Agrees(h, vals[n := Some(val)])
  {
    n.val_list := Some(val);
  }

  /** The tree as a value: what is in its nodes, its shape, and the map that it refines. */
  datatype Rep = Rep(root: ParamNode?, nb: int, h: map<ParamNode, Cell<string>>, vals: map<ParamNode, Option<Val>>,
                     t: Tree, params: map<string, Val>)

  /** The tree is ordered and refines its map, and has nb nodes under the root. */
  ghost predicate Good(r: Rep) {
    r.root != null ==>
      && Named(r.h) && Shaped(r.h, r.root, r.t) && r.nb + 1 == Size(r.t)
      && Refines(r.h, r.vals, r.root, TreeNames(r.h, r.t), r.params)
  }

  type SearchTree = r: Rep | Good(r) ghost witness Rep(null, 0, map[], map[], Leaf, map[])

  lemma WithNode(r: SearchTree, p: ParamNode, left: bool, new_: ParamNode, k: string, v: Val) returns (r': SearchTree)
    requires r.root != null && p in r.h && new_ !in r.h && k == Key(new_.id_param)
    requires Search(r.h, r.t, k, r.root, true) == Missing(p, left)
    ensures && r'.root == r.root && r'.nb == r.nb + 1 && r'.h == Linked(r.h, p, left, new_, k)
            && r'.vals == r.vals[new_ := Some(v)] && r'.params == r.params[k := v]
            && r'.h.Keys == r.h.Keys + {new_}
  {
    LinkedNamed(r.h, p, left, new_);
    NewNodeLinked(r.h, r.vals, r.root, r.t, r.params, k, p, left, new_, v);
    r' := Rep(r.root, r.nb + 1, Linked(r.h, p, left, new_, k), r.vals[new_ := Some(v)],
              Grown(r.h, r.t, k, new_), r.params[k := v]);
  }

  lemma WithValue(r: SearchTree, n: ParamNode, v: Val) returns (r': SearchTree)
    requires r.root != null && n in r.h
    ensures r' == r.(vals := r.vals[n := Some(v)], params := r.params[r.h[n].key := v])
  {
    NameHeldOnce(r.h, r.t, n);
    NodeHasName(r.h, r.t, n);
    ValueSet(r.h, r.vals, r.root, TreeNames(r.h, r.t), r.params, n, v);
    r' := r.(vals := r.vals[n := Some(v)], params := r.params[r.h[n].key := v]);
  }

  /** Only the root is left, with the value it may have. */
  lemma RootOnly(root: ParamNode, v: Option<Val>) returns (r: SearchTree)
    ensures var k := Key(root.id_param);
            && r.root == root && r.nb == 0 && r.h == map[root := Cell(null, null, k)] && r.vals == map[root := v]
            && r.params == if v == None then map[] else map[k := v.value]
  {
    var k := Key(root.id_param);
    var h, t := map[root := Cell(null, null, k)], Branch(Leaf, root, Leaf);
    var params := if v == None then map[] else map[k := v.value];
    OneNode(root, k);
    OneValue(h, root, k, v, params);
    assert Named(h) && Size(t) == 1 && Shaped(h, root, t);
    assert Refines(h, map[root := v], root, TreeNames(h, t), params);
    r := Rep(root, 0, h, map[root := v], t, params);
  }

  lemma NodeValue(r: SearchTree, n: ParamNode)
    requires r.root != null && n in r.h
    ensures n in r.vals && r.vals[n] == Get(r.params, r.h[n].key)
  {}

  lemma ValueOf(r: SearchTree, n: ParamNode)
    requires r.root != null && n in r.h
    ensures n in r.vals && r.vals[n] == Get(r.params, Key(n.id_param)) && r.h[n].key == Key(n.id_param)
  {
    assert NameOf(r.h, n) == Key(n.id_param);
  }

  class ParamTree {
    const root: ParamNode
    var s_nb_params: nat
    var s_reject_second_param_def: bool
    const heap: Allocator
    ghost var rep: SearchTree

    ghost function Params(): map<string, Val> reads this { rep.params }

    ghost predicate Valid() reads this, rep.h.Keys {
      rep.root == root && rep.nb == s_nb_params && root in rep.h && Agrees(rep.h, rep.vals)
    }

    constructor (reject: bool)
      ensures Valid() && fresh(rep.h.Keys) && Params() == map[] && s_reject_second_param_def == reject
      ensures root.id_param == ROOT_NAME && heap.freed == [] && fresh(heap)
    {
      var r := new ParamNode(ROOT_NAME, None);
      root := r;
      s_nb_params := 0;
      heap := new Allocator();
      s_reject_second_param_def := reject;
      ghost var tree := RootOnly(r, None);
      rep := tree;
    }

    /** find_param_val(), under a node; sub is the tree there. */
    method FindParamVal(p_node: ParamNode?, id: string, ghost sub: Tree) returns (v: Option<Val>)
      requires Agrees(rep.h, rep.vals) && Named(rep.h) && Mirrors(rep.h, p_node, sub)
      ensures v == match Search(rep.h, sub, Key(id), root, true)
                   case Found(n) => if n in rep.vals then rep.vals[n] else None
                   case Missing(_, _) => None
      decreases sub
    {
      if p_node == null { return None; }
      assert NameOf(rep.h, p_node) == Key(p_node.id_param);
      var compar := Compare(Key(id), Key(p_node.id_param));
      if compar < 0 {
        ParentOnly(rep.h, sub.l, Key(id), root, true, p_node, true);
        v := FindParamVal(p_node.p_left, id, sub.l);
        return;
      }
      if compar > 0 {
        ParentOnly(rep.h, sub.r, Key(id), root, true, p_node, false);
        v := FindParamVal(p_node.p_right, id, sub.r);
        return;
      }
      v := p_node.val_list;
    }

    /** What is found is what was defined. */
    method Lookup(id: string) returns (v: Option<Val>)
      requires Valid()
      ensures v == Get(Params(), Key(id))
    {
      FoundValue(rep.h, rep.vals, root, rep.t, rep.params, Key(id));
      v := FindParamVal(root, id, rep.t);
    }

    /** s_nb_params is the number of distinct names, without the name of the root. */
    method NbParams() returns (n: nat)
      requires Valid()
      ensures n == |Params().Keys - {Key(root.id_param)}|
    {
      n := s_nb_params;
      NamesAreCounted(rep.h, rep.vals, root, rep.t, rep.params);
      ValueOf(rep, root);
    }

    /** The end of assign_param_val_to_node(). */
    method StoreValue(p_node: ParamNode, val: Val)
      requires Valid() && p_node in rep.h
      modifies p_node`val_list, this`rep
      ensures Valid() && rep.h.Keys == old(rep.h.Keys)
      ensures Params() == old(Params())[old(rep.h)[p_node].key := val]
    {
      ghost var r := rep;
      SetValue(p_node, val, r.h, r.vals);
      ghost var tree := WithValue(r, p_node, val);
      assert Agrees(tree.h, tree.vals);
      rep := tree;
    }

    method AssignParamValToNode(p_node: ParamNode, val: Val) returns (rc: int)
      requires Valid() && p_node in rep.h
      modifies p_node`val_list, this`rep
      ensures Valid() && rep.h.Keys == old(rep.h.Keys)
      ensures var k := old(rep.h)[p_node].key;
              && rc == (if k in old(Params()) && s_reject_second_param_def then UCFG_PARAM_DUPLICATED else 0)
              && Params() == if rc == 0 then old(Params())[k := val] else old(Params())
    {
      NodeValue(rep, p_node);
      if p_node.val_list.Some? && s_reject_second_param_def { return UCFG_PARAM_DUPLICATED; }
      StoreValue(p_node, val);
      rc := 0;
    }

    /** The loop of insert_param_def(): it ends on a node, or past one on the side of compar. */
    method Descend(id: string) returns (p_node: ParamNode?, p_prev: ParamNode, compar: int)
      requires Agrees(rep.h, rep.vals) && Named(rep.h) && Mirrors(rep.h, root, rep.t)
      ensures Search(rep.h, rep.t, Key(id), root, true)
              == if p_node != null then Found(p_node) else Missing(p_prev, compar < 0)
    {
      p_node, p_prev, compar := root, root, 0;
      ghost var sub := rep.t;
      while p_node != null
        invariant Mirrors(rep.h, p_node, sub)
        invariant Search(rep.h, rep.t, Key(id), root, true) == Search(rep.h, sub, Key(id), p_prev, compar < 0)
        decreases sub
      {
        assert NameOf(rep.h, p_node) == Key(p_node.id_param);
        compar := Compare(Key(id), Key(p_node.id_param));
        if compar == 0 { return; }
        p_prev := p_node;
        if compar < 0 {
          p_node := p_node.p_left;
          sub := sub.l;
        } else {
          p_node := p_node.p_right;
          sub := sub.r;
        }
      }
    }

    /** insert_param_def() from the root: a name that has a value keeps it or loses it, as the policy
        says; any other gets this one, in a node of its own. */
    method InsertParamDef(id: string, val: Val) returns (rc: int)
      requires Valid()
      modifies this`rep, this`s_nb_params, rep.h.Keys
      ensures Valid() && fresh(rep.h.Keys - old(rep.h.Keys))
      ensures var k := Key(id);
              && rc == (if k in old(Params()) && s_reject_second_param_def then UCFG_PARAM_DUPLICATED else 0)
              && Params() == if rc == 0 then old(Params())[k := val] else old(Params())
    {
      FoundValue(rep.h, rep.vals, root, rep.t, rep.params, Key(id));
      var p_node, p_prev, compar := Descend(id);
      if p_node != null {
        rc := AssignParamValToNode(p_node, val);
      } else {
        LinkNewNode(p_prev, compar < 0, id, val);
        rc := 0;
      }
    }

    /** The end of insert_param_def(): a new node where the search has ended. */
    method LinkNewNode(p_prev: ParamNode, left: bool, id: string, val: Val)
      requires Valid() && Search(rep.h, rep.t, Key(id), root, true) == Missing(p_prev, left) && p_prev in rep.h
      modifies this`rep, this`s_nb_params, p_prev
      ensures Valid() && fresh(rep.h.Keys - old(rep.h.Keys))
      ensures Params() == old(Params())[Key(id) := val]
    {
      ghost var r, k := rep, Key(id);
      var p_new := NewNode(p_prev, left, id, val, r.h, r.vals, k);
      ghost var tree := WithNode(r, p_prev, left, p_new, k, val);
      assert Agrees(tree.h, tree.vals);
      Install(tree, s_nb_params + 1);
    }

    /** The tree on the heap is now this one. */
    method Install(ghost tree: SearchTree, nb: nat)
      requires tree.root == root && tree.nb == nb && root in tree.h && Agrees(tree.h, tree.vals)
      modifies this`rep, this`s_nb_params
      ensures Valid() && rep == tree
    {
      s_nb_params := nb;
      rep := tree;
    }

    /** free_param_tree() from the root, and the counter that its caller resets: every node but the root is
        given back once, and nothing is left, but a value that the root's own name may have. */
    method FreeParamTree()
      requires Valid()
      modifies this`rep, this`s_nb_params, heap, root
      ensures Valid() && s_nb_params == 0 && rep.h.Keys == {root}
      ensures heap.freed == old(heap.freed) + UnderRoot(old(rep.t))
      ensures multiset(UnderRoot(old(rep.t))) == multiset(old(rep.h.Keys) - {root})
      ensures var k := Key(root.id_param); Params() == if k in old(Params()) then map[k := old(Params())[k]] else map[]
    {
      ghost var r := rep;
      ValueOf(r, root);
      AllUnderRoot(r.h, root, r.t);
      FreeUnder(r);
      ClearRoot();
    }

    method FreeUnder(ghost r: SearchTree)
      requires Agrees(r.h, r.vals) && r.root == root && Mirrors(r.h, root, r.t) && r.t.Branch?
      modifies heap
      ensures heap.freed == old(heap.freed) + UnderRoot(r.t)
    {
      FreeNodes(heap, root.p_left, r.t.l, r.h, r.vals);
      FreeNodes(heap, root.p_right, r.t.r, r.h, r.vals);
      Appended(old(heap.freed), PostOrder(r.t.l), PostOrder(r.t.r));
    }

    /** The branch of the root, which keeps its value. */
    method ClearRoot()
      requires Valid()
      modifies this`rep, this`s_nb_params, root
      ensures Valid() && s_nb_params == 0 && rep.h.Keys == {root}
      ensures var k := Key(root.id_param); Params() == if k in old(Params()) then map[k := old(Params())[k]] else map[]
    {
      ValueOf(rep, root);
      ghost var tree := RootOnly(root, root.val_list);
      assert tree.h.Keys == {root} && tree.vals.Keys == {root};
      ClearLinks(root, tree.h, tree.vals);
      Install(tree, 0);
    }
  }

  method ClearLinks<K>(n: ParamNode, ghost h: map<ParamNode, Cell<K>>, ghost vals: map<ParamNode, Option<Val>>)
    requires h.Keys == {n} && vals.Keys == {n} && h[n].left == null && h[n].right == null && vals[n] == n.val_list
    modifies n`p_left, n`p_right
    ensures Agrees(h, vals)
  {
    n.p_left := null;
    n.p_right := null;
  }

  /** The nodes given back by free(), in order. */
  class Allocator {
    var freed: seq<ParamNode>

    constructor ()
      ensures freed == []
    {
      freed := [];
    }
  }

  /** free_param_tree() below the root: each node after those under it. */
  method FreeNodes<K>(heap: Allocator, p_node: ParamNode?, ghost sub: Tree, ghost h: map<ParamNode, Cell<K>>,
                      ghost vals: map<ParamNode, Option<Val>>)
    requires Agrees(h, vals) && Mirrors(h, p_node, sub)
    modifies heap
    ensures heap.freed == old(heap.freed) + PostOrder(sub)
    decreases sub
  {
    if p_node == null { return; }
    FreeNodes(heap, p_node.p_left, sub.l, h, vals);
    FreeNodes(heap, p_node.p_right, sub.r, h, vals);
    heap.freed := heap.freed + [p_node];
  }

  function PostOrder(t: Tree): seq<ParamNode> {
    match t
    case Leaf => []
    case Branch(l, n, r) => PostOrder(l) + PostOrder(r) + [n]
  }

  lemma Appended<T>(a: seq<T>, b: seq<T>, c: seq<T>)
    ensures (a + b) + c == a + (b + c)
  {}

  function UnderRoot(t: Tree): seq<ParamNode> {
    if t.Branch? then PostOrder(t.l) + PostOrder(t.r) else []
  }

  lemma DisjointUnion<T>(a: set<T>, b: set<T>)
    requires a !! b
    ensures multiset(a + b) == multiset(a) + multiset(b)
  {}

  lemma {:induction false} PostOrderIsAll(t: Tree)
    requires Distinct(t)
    ensures multiset(PostOrder(t)) == multiset(Refs(t))
  {
    match t
    case Leaf =>
    case Branch(l, n, r) =>
      PostOrderIsAll(l);
      PostOrderIsAll(r);
      ThreeParts(PostOrder(l), Refs(l), PostOrder(r), Refs(r), n);
  }

  lemma ThreeParts<T>(a: seq<T>, x: set<T>, b: seq<T>, y: set<T>, n: T)
    requires multiset(a) == multiset(x) && multiset(b) == multiset(y) && x !! y && n !in x && n !in y
    ensures multiset(a + b + [n]) == multiset(x + {n} + y)
  {
    DisjointUnion(x, {n});
    DisjointUnion(x + {n}, y);
    assert multiset(a + b + [n]) == multiset(a) + multiset(b) + multiset{n};
  }

  lemma AllUnderRoot(h: map<ParamNode, Cell<string>>, root: ParamNode, t: Tree)
    requires Shaped(h, root, t)
    ensures multiset(UnderRoot(t)) == multiset(h.Keys - {root})
  {
    PostOrderIsAll(t.l);
    PostOrderIsAll(t.r);
    DisjointUnion(Refs(t.l), Refs(t.r));
    assert h.Keys - {root} == Refs(t.l) + Refs(t.r);
  }

  /** Where the search begins matters only when there is nothing to search. */
  lemma ParentOnly(h: map<ParamNode, Cell<string>>, t: Tree, k: string, p: ParamNode, left: bool, p': ParamNode,
                   left': bool)
    ensures t.Branch? ==> Search(h, t, k, p, left) == Search(h, t, k, p', left')
    ensures t.Leaf? ==> Search(h, t, k, p, left).Missing? && Search(h, t, k, p', left').Missing?
  {}

  lemma {:induction false} NameHeldOnce(h: map<ParamNode, Cell<string>>, t: Tree, n: ParamNode)
    requires Ordered(h, t) && n in Refs(t) && Refs(t) <= h.Keys
    ensures forall x :: x in Refs(t) && x != n ==> h[x].key != h[n].key
  {
    match t
    case Branch(l, m, r) =>
      if n in Refs(l) { NameHeldOnce(h, l, n); }
      if n in Refs(r) { NameHeldOnce(h, r, n); }
      CompareEqual(NameOf(h, n), NameOf(h, n));
      forall x | x in Refs(t) && x != n ensures h[x].key != h[n].key {
        if NameOf(h, x) == NameOf(h, n) { CompareBothWays(NameOf(h, n), NameOf(h, m)); }
      }
  }
}
