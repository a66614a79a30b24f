/** The ordered map of module/treemap.c over the red-black tree: add, lookup with a
    search flag, delete, and the cursor. */
module TreeMap {
  import opened RbTree
  import opened RbInsert
  import opened RbErase
  import opened RbRemove
  import opened RbWalk

  datatype Flag = BEGIN | END | EQ | LT | LE | GT | GE

  datatype Item<V> = Item(key: nat, val: V)

  // ---------------------------------------------------- places in sorted keys

  ghost predicate Ascending(ks: seq<nat>) {
    forall i, j | 0 <= i < j < |ks| :: ks[i] < ks[j]
  }

  /** How many of the sorted keys lie below `k`. */
  function Low(ks: seq<nat>, k: nat): (n: nat)
    ensures n <= |ks| && (forall i | 0 <= i < n :: ks[i] < k) && (n < |ks| ==> ks[n] >= k)
  {
    if ks == [] || ks[0] >= k then 0 else 1 + Low(ks[1..], k)
  }

  ghost predicate Has(ks: seq<nat>, k: nat) {
    Low(ks, k) < |ks| && ks[Low(ks, k)] == k
  }

  /** The entry a search is to find; out of range if there is none. */
  ghost function Place(ks: seq<nat>, k: nat, flag: Flag): int {
    var n := Low(ks, k);
    match flag
    case BEGIN => -1
    case END => |ks|
    case EQ => if Has(ks, k) then n else -1
    case LT => n - 1
    case LE => if Has(ks, k) then n else n - 1
    case GT => if Has(ks, k) then n + 1 else n
    case GE => n
  }

  /** What a search flag asks for, by the keys alone: the one key, the greatest on one
      side, or the least on the other; out of range if there is none. */
  ghost predicate Sought(ks: seq<nat>, k: nat, flag: Flag, p: int) {
    match flag
    case BEGIN => p == -1
    case END => p == |ks|
    case EQ => if k in ks then 0 <= p < |ks| && ks[p] == k else p == -1
    case LT => -1 <= p < |ks| && forall i | 0 <= i < |ks| :: ks[i] < k <==> i <= p
    case LE => -1 <= p < |ks| && forall i | 0 <= i < |ks| :: ks[i] <= k <==> i <= p
    case GT => 0 <= p <= |ks| && forall i | 0 <= i < |ks| :: ks[i] > k <==> p <= i
    case GE => 0 <= p <= |ks| && forall i | 0 <= i < |ks| :: ks[i] >= k <==> p <= i
  }

  /** Of sorted keys the place a search finds is the one its flag asks for, and no
      other place is. */
  lemma PlaceIsSought(ks: seq<nat>, k: nat, flag: Flag, p: int)
    requires Ascending(ks)
    ensures Sought(ks, k, flag, p) <==> p == Place(ks, k, flag)
  {
    var n := Low(ks, k);
    assert forall i | n <= i < |ks| :: ks[i] >= k;
    assert forall i | n < i < |ks| :: ks[i] > k;
    var q := Place(ks, k, flag);
    assert Sought(ks, k, flag, q);
    if Sought(ks, k, flag, p) && p < q {
      NoTwoPlaces(ks, k, flag, p, q);
    } else if Sought(ks, k, flag, p) && q < p {
      NoTwoPlaces(ks, k, flag, q, p);
    }
  }

  lemma NoTwoPlaces(ks: seq<nat>, k: nat, flag: Flag, p: int, q: int)
    requires Ascending(ks) && p < q && Sought(ks, k, flag, p)
    ensures !Sought(ks, k, flag, q)
  {
    match flag
    case BEGIN =>
    case END =>
    case EQ => assert 0 <= p < q < |ks| ==> ks[p] < ks[q];
    case LT => assert 0 <= q < |ks| ==> !(ks[q] < k);
    case LE => assert 0 <= q < |ks| ==> !(ks[q] <= k);
    case GT => assert p < |ks| ==> ks[p] > k;
    case GE => assert p < |ks| ==> ks[p] >= k;
  }

  lemma {:induction false} LowIs(a: seq<nat>, b: seq<nat>, k: nat)
    requires (forall i | 0 <= i < |a| :: a[i] < k) && (b != [] ==> b[0] >= k)
    ensures Low(a + b, k) == |a|
    decreases |a|
  {
    if a == [] {
      assert a + b == b;
    } else {
      assert (a + b)[1..] == a[1..] + b;
      LowIs(a[1..], b, k);
    }
  }

  // -------------------------------------------------- linking a new red leaf

  /** rb_link_node */
  function LinkedMem(h: Memory, at: nat, parent: nat, left: bool): Memory
    requires parent != NULL ==> parent in h
  {
    var h1 := h[at := RbNode(true, parent, NULL, NULL)];
    if parent == NULL then h1
    else if left then h1[parent := h1[parent].(left := at)] else h1[parent := h1[parent].(right := at)]
  }

  lemma Linked(h: Memory, root: nat, h2: Memory, root2: nat, p: Path, at: nat)
    requires Holds(h, root, p, Leaf) && at != NULL && at !in UpNodes(p)
    requires Above(p) != NULL ==> Above(p) in h
    requires h2 == LinkedMem(h, at, Above(p), p.Under? && p.frame.isLeft) && root2 == (if Above(p) == NULL then at else root)
    ensures Holds(h2, root2, p, Node(Leaf, at, true, Leaf))
  {
    AboveOutside(p, Leaf);
    UpIn(h, p, NULL, root);
    assert p.Under? ==> Above(p) in UpNodes(p);
    var t := Node(Leaf, at, true, Leaf);
    assert Nodes(t) == {at} && Distinct(p, t);
    hide ApartUp;
    UpMoved(h, h2, p, NULL, at, root, root2);
    assert Rep(h2, t, Above(p));
  }

  // ------------------------------------------------------------------ the map

  function KeysOf(key: map<nat, nat>, s: seq<nat>): (ks: seq<nat>)
    requires forall i | 0 <= i < |s| :: s[i] in key
    ensures |ks| == |s|
  {
    seq(|s|, i requires 0 <= i < |s| => key[s[i]])
  }

  function ItemsOf<V>(key: map<nat, nat>, val: map<nat, V>, s: seq<nat>): (items: seq<Item<V>>)
    requires forall i | 0 <= i < |s| :: s[i] in key && s[i] in val
    ensures |items| == |s|
  {
    seq(|s|, i requires 0 <= i < |s| => Item(key[s[i]], val[s[i]]))
  }

  /** All keys of the nodes are below, or above, `k`. */
  ghost predicate AllBelow(key: map<nat, nat>, s: seq<nat>, k: nat) {
    forall i | 0 <= i < |s| :: s[i] in key && key[s[i]] < k
  }

  ghost predicate AllAbove(key: map<nat, nat>, s: seq<nat>, k: nat) {
    forall i | 0 <= i < |s| :: s[i] in key && key[s[i]] > k
  }

  class Map<V> {
    const r: RbRoot
    var key: map<nat, nat>
    var val: map<nat, V>
    ghost var tree: Tree

    ghost function Order(): seq<nat>
      reads this
    {
      InOrder(tree)
    }

    ghost predicate Valid()
      reads this, r
    {
      && Holds(r.node, r.root, Top, tree) && RedBlack(tree)
      && (forall i | 0 <= i < |Order()| :: Order()[i] in key && Order()[i] in val)
      && Ascending(KeysOf(key, Order()))
    }

    ghost function Keys(): seq<nat>
      requires forall i | 0 <= i < |Order()| :: Order()[i] in key
      reads this
    {
      KeysOf(key, Order())
    }

    ghost function Items(): seq<Item<V>>
      requires forall i | 0 <= i < |Order()| :: Order()[i] in key && Order()[i] in val
      reads this
    {
      ItemsOf(key, val, Order())
    }

    constructor ()
      ensures Valid() && fresh(r) && Items() == []
    {
      r := new RbRoot();
      key, val := map[], map[];
      tree := Leaf;
      new;
      assert Height(Leaf, 0);
    }

    /** Down the tree towards `k`: to its node, or to where it would hang. */
    method Descend(k: nat) returns (at: nat, last: nat, wentLeft: bool, ghost p: Path, ghost t: Tree)
      requires Valid()
      ensures Plug(p, t) == tree && Holds(r.node, r.root, p, t) && at == Addr(t) && last == Above(p)
      ensures t.Node? ==> at != NULL && at in key && key[at] == k
      ensures p.Under? && t.Leaf? ==> wentLeft == p.frame.isLeft
      ensures AllBelow(key, Before(p), k) && AllAbove(key, Behind(p), k)
    {
      at, last, wentLeft := r.root, NULL, false;
      p, t := Top, tree;
      Links(r.node, r.root, p, t);
      assert AllBelow(key, Before(p), k) && AllAbove(key, Behind(p), k);
      hide Holds, RedBlack, KeysOf, Ascending, AllBelow, AllAbove;
      while at != NULL
        invariant Plug(p, t) == tree && Holds(r.node, r.root, p, t) && at == Addr(t) && last == Above(p)
        invariant t.Node? ==> at != NULL && at in r.node && r.node[at] == RbNode(t.red, Above(p), Addr(t.left), Addr(t.right))
        invariant p.Under? ==> wentLeft == p.frame.isLeft
        invariant AllBelow(key, Before(p), k) && AllAbove(key, Behind(p), k)
        decreases t
      {
        SideKeys(key, tree, p, t, k);
        if k < key[at] {
          ghost var f := Frame(true, t.at, t.red, t.right);
          Move(r.node, r.root, f, p, t.left);
          last, at, wentLeft := at, r.node[at].left, true;
          p, t := Under(f, p), t.left;
        } else if k > key[at] {
          ghost var f := Frame(false, t.at, t.red, t.left);
          Move(r.node, r.root, f, p, t.right);
          last, at, wentLeft := at, r.node[at].right, false;
          p, t := Under(f, p), t.right;
        } else {
          return;
        }
        Links(r.node, r.root, p, t);
      }
    }

    /** rb_link_node. */
    method Link(at: nat, parent: nat, left: bool, ghost p: Path)
      requires Holds(r.node, r.root, p, Leaf) && at != NULL && at !in UpNodes(p)
      requires parent == Above(p) && (p.Under? ==> left == p.frame.isLeft)
      modifies r
      ensures Holds(r.node, r.root, p, Node(Leaf, at, true, Leaf))
    {
      ghost var h, root := r.node, r.root;
      AllIn(h, root, p, Leaf);
      AboveOutside(p, Leaf);
      AboveIn(p);
      hide Holds;
      r.node := r.node[at := RbNode(true, parent, NULL, NULL)];
      if parent == NULL {
        r.root := at;
      } else if left {
        r.node := r.node[parent := r.node[parent].(left := at)];
      } else {
        r.node := r.node[parent := r.node[parent].(right := at)];
      }
      Linked(h, root, r.node, r.root, p, at);
    }

    /** The new node is linked in and the colours are repaired. */
    method LinkIn(at: nat, parent: nat, left: bool, ghost p: Path)
      requires Plug(p, Leaf) == tree && Holds(r.node, r.root, p, Leaf) && RedBlack(tree) && at != NULL && at !in Nodes(tree)
      requires parent == Above(p) && (p.Under? ==> left == p.frame.isLeft)
      modifies this`tree, r
      ensures Holds(r.node, r.root, Top, tree) && RedBlack(tree) && Order() == Before(p) + [at] + Behind(p)
    {
      ghost var leaf := Node(Leaf, at, true, Leaf);
      PlugNodes(p, Leaf);
      ghost var n := Unplug(p, Leaf);
      PlugSplit(p, leaf);
      LeafOk(p, at, n);
      assert InOrder(leaf) == [at];
      hide Holds, RedBlack, InOrder, Nodes, UpNodes, Plug, Before, Behind, OneRed;
      Link(at, parent, left, p);
      tree := InsertColor(r, at, p, leaf, 0);
    }

    method AddNew(at: nat, k: nat, v: V, parent: nat, left: bool, ghost p: Path)
      requires Valid() && Plug(p, Leaf) == tree && Holds(r.node, r.root, p, Leaf) && at != NULL && at !in Nodes(tree)
      requires parent == Above(p) && (p.Under? ==> left == p.frame.isLeft)
      requires AllBelow(key, Before(p), k) && AllAbove(key, Behind(p), k) && Order() == Before(p) + Behind(p)
      modifies this, r
      ensures Valid() && Order() == Before(p) + [at] + Behind(p)
      ensures Items() == old(Items())[..|Before(p)|] + [Item(k, v)] + old(Items())[|Before(p)|..]
    {
      OrderNodes(tree);
      AddedItems(key, val, Before(p), Behind(p), at, k, v);
      hide Holds, RedBlack, KeysOf, ItemsOf, Ascending, InOrder, Nodes, Plug, Before, Behind, AllBelow, AllAbove;
      key, val := key[at := k], val[at := v];
      LinkIn(at, parent, left, p);
    }

    /** map_add, with a node at an address that is free. */
    method Add(at: nat, k: nat, v: V) returns (ok: bool)
      requires Valid() && at != NULL && at !in Nodes(tree)
      modifies this, r
      ensures Valid()
      ensures ok <==> !Has(old(Keys()), k)
      ensures !ok ==> Order() == old(Order()) && Items() == old(Items())
      ensures var n := Low(old(Keys()), k);
        ok ==> Order() == old(Order())[..n] + [at] + old(Order())[n..] && Items() == old(Items())[..n] + [Item(k, v)] + old(Items())[n..]
    {
      ghost var p, t;
      var cur, parent, left;
      cur, parent, left, p, t := Descend(k);
      FoundAt(key, p, t, k);
      PlugSplit(p, Leaf);
      hide Holds, RedBlack, KeysOf, ItemsOf, Ascending, AllBelow, AllAbove;
      if cur != NULL {
        return false;
      }
      CutPlace(Order(), Before(p), Behind(p));
      AddNew(at, k, v, parent, left, p);
      ok := true;
    }

    /** The loop of map_lookup_node_detail: the node with the key, or the last one
        visited, which is then a neighbour of the place of the key. */
    method Visit(k: nat) returns (t: nat, found: bool, ghost i: nat)
      requires Valid()
      ensures Has(Keys(), k) == found && (t == NULL <==> Order() == [])
      ensures t != NULL ==> i < |Order()| && Order()[i] == t && t in key
      ensures t != NULL ==> if found then key[t] == k && Low(Keys(), k) == i
                            else key[t] != k && Low(Keys(), k) == if key[t] < k then i + 1 else i
      ensures t == NULL ==> !found
    {
      ghost var p, s;
      var at, last, left;
      at, last, left, p, s := Descend(k);
      FoundAt(key, p, s, k);
      NullNotIn(r.node, r.root, p, s);
      i, t, found := 0, last, at != NULL;
      if found {
        RootAt(p, s);
        i, t := |Before(p)| + |InOrder(s.left)|, at;
      } else {
        hide Holds, RedBlack, Ascending, KeysOf;
        PlugSplit(p, s);
        if p.Under? {
          LastAt(p);
          SideOf(key, p, k);
          i := if p.frame.isLeft then |Before(p)| else |Before(p)| - 1;
        }
      }
    }

    /** map_lookup_node_detail */
    method Lookup(k: nat, flag: Flag) returns (node: nat)
      requires Valid()
      ensures node == if flag.BEGIN? || flag.END? then NULL else Entry(Order(), Place(Keys(), k, flag))
    {
      if flag.BEGIN? || flag.END? {
        return NULL;
      }
      var t, found;
      ghost var i;
      t, found, i := Visit(k);
      hide RedBlack, Ascending, Holds;
      if found && (flag.EQ? || flag.LE? || flag.GE?) {
        return t;
      }
      if t == NULL {
        return NULL;
      }
      match flag {
        case EQ => node := NULL;
        case LT => node := Lower(t, k, i);
        case LE => node := Lower(t, k, i);
        case GT => node := Higher(t, k, i);
        case GE => node := Higher(t, k, i);
      }
    }

    /** The node itself if its key is lower than `k`, or else the one before it. */
    method Lower(t: nat, k: nat, ghost i: nat) returns (node: nat)
      requires Valid() && i < |Order()| && Order()[i] == t
      ensures node == Entry(Order(), if key[t] < k then i else i - 1)
    {
      if key[t] < k {
        node := t;
      } else {
        node := Prev(r, t, tree, i);
      }
    }

    method Higher(t: nat, k: nat, ghost i: nat) returns (node: nat)
      requires Valid() && i < |Order()| && Order()[i] == t
      ensures node == Entry(Order(), if key[t] > k then i else i + 1)
    {
      if key[t] > k {
        node := t;
      } else {
        node := Next(r, t, tree, i);
      }
    }

    /** Another value for the node at place `i`. */
    method SetVal(at: nat, v: V, ghost i: nat)
      requires Valid() && i < |Order()| && at == Order()[i]
      modifies this`val
      ensures Valid() && Items() == old(Items())[i := Item(key[at], v)]
    {
      NoTwice(key, Order());
      val := val[at := v];
    }

    /** rb_erase and free_node for the node at place `i` of the order. */
    method EraseAt(at: nat, ghost i: nat)
      requires Valid() && i < |Order()| && at == Order()[i]
      modifies this`tree, r
      ensures Valid() && Order() == old(Order())[..i] + old(Order())[i + 1..]
      ensures Items() == old(Items())[..i] + old(Items())[i + 1..]
    {
      ghost var p, t := ViewHere(r.node, r.root, tree, i);
      DroppedItems(key, val, Order(), i);
      hide Holds, RedBlack, KeysOf, ItemsOf, Ascending, InOrder, Plug, Before, Behind;
      tree := Erase(r, at, p, t);
    }

    /** map_del */
    method Del(k: nat) returns (ok: bool)
      requires Valid()
      modifies this`tree, r
      ensures Valid() && (ok <==> Has(old(Keys()), k))
      ensures !ok ==> Order() == old(Order()) && Items() == old(Items())
      ensures var n := Low(old(Keys()), k);
        ok ==> Order() == old(Order())[..n] + old(Order())[n + 1..] && Items() == old(Items())[..n] + old(Items())[n + 1..]
    {
      ghost var p, t;
      var at, parent, left;
      at, parent, left, p, t := Descend(k);
      FoundAt(key, p, t, k);
      if at == NULL {
        return false;
      }
      ghost var n := Low(Keys(), k);
      IndexOf(p, t, n);
      hide Holds, RedBlack, KeysOf, ItemsOf, Ascending, AllBelow, AllAbove, InOrder, Plug, Before, Behind, Low, Has;
      EraseAt(at, n);
      ok := true;
    }
  }

  lemma NoTwice(key: map<nat, nat>, s: seq<nat>)
    requires (forall j | 0 <= j < |s| :: s[j] in key) && Ascending(KeysOf(key, s))
    ensures forall i, j | 0 <= i < j < |s| :: s[i] != s[j]
  {
    forall i, j | 0 <= i < j < |s| ensures s[i] != s[j] {
      assert KeysOf(key, s)[i] < KeysOf(key, s)[j];
    }
  }

  lemma IndexOf(p: Path, t: Tree, n: nat)
    requires t.Node? && n == |Before(p)| + |InOrder(t.left)|
    ensures n < |InOrder(Plug(p, t))| && InOrder(Plug(p, t))[n] == t.at
  {
    RootAt(p, t);
  }

  lemma SideOf(key: map<nat, nat>, p: Path, k: nat)
    requires p.Under? && AllBelow(key, Before(p), k) && AllAbove(key, Behind(p), k)
    ensures p.frame.at in key && (if p.frame.isLeft then key[p.frame.at] > k else key[p.frame.at] < k)
  {
    if p.frame.isLeft {
      assert Behind(p)[0] == p.frame.at;
    } else {
      assert Before(p)[|Before(p)| - 1] == p.frame.at;
    }
  }

  lemma NullNotIn(h: Memory, root: nat, p: Path, t: Tree)
    requires Holds(h, root, p, t)
    ensures p.Under? ==> Above(p) != NULL
    ensures forall x | x in InOrder(Plug(p, t)) :: x != NULL
  {
    AboveOutside(p, t);
    PlugNodes(p, t);
    OrderNodes(Plug(p, t));
  }

  /** The node under which the way down ended is next to the place it ended at. */
  lemma LastAt(p: Path)
    requires p.Under?
    ensures var s, n := InOrder(Plug(p, Leaf)), |Before(p)|; var i := if p.frame.isLeft then n else n - 1;
      0 <= i < |s| && s[i] == p.frame.at
  {
    PlugSplit(p, Leaf);
  }

  /** The view of entry `i`, and the order without it. */
  lemma ViewHere(h: Memory, root: nat, tree: Tree, i: nat) returns (p: Path, t: Tree)
    requires Holds(h, root, Top, tree) && i < |InOrder(tree)|
    ensures Plug(p, t) == tree && Holds(h, root, p, t) && t.Node? && t.at == InOrder(tree)[i]
    ensures Before(p) + InOrder(t.left) + InOrder(t.right) + Behind(p) == InOrder(tree)[..i] + InOrder(tree)[i + 1..]
  {
    hide Holds;
    p, t := ViewAt(Top, tree, i);
    RootAt(p, t);
    FromTop(h, root, p, t);
    Regroup4(Before(p), InOrder(t.left), InOrder(t.right), Behind(p));
  }

  lemma Regroup4(a: seq<nat>, b: seq<nat>, c: seq<nat>, d: seq<nat>)
    ensures (a + b) + (c + d) == a + b + c + d
  {
  }

  lemma DroppedItems<V>(key: map<nat, nat>, val: map<nat, V>, s: seq<nat>, i: nat)
    requires (forall j | 0 <= j < |s| :: s[j] in key && s[j] in val) && Ascending(KeysOf(key, s)) && i < |s|
    ensures var s2 := s[..i] + s[i + 1..];
      && (forall j | 0 <= j < |s2| :: s2[j] in key && s2[j] in val) && Ascending(KeysOf(key, s2))
      && ItemsOf(key, val, s2) == ItemsOf(key, val, s)[..i] + ItemsOf(key, val, s)[i + 1..]
  {
    var s2 := s[..i] + s[i + 1..];
    forall j | 0 <= j < |s2| ensures s2[j] == s[if j < i then j else j + 1] {
    }
    forall a, b | 0 <= a < b < |KeysOf(key, s2)| ensures KeysOf(key, s2)[a] < KeysOf(key, s2)[b] {
      var x, y := if a < i then a else a + 1, if b < i then b else b + 1;
      assert KeysOf(key, s)[x] < KeysOf(key, s)[y];
    }
  }

  lemma LeafOk(p: Path, at: nat, n: int)
    requires UpOk(p, n) && Height(Leaf, n)
    ensures OneRed(p, Node(Leaf, at, true, Leaf), 0)
  {
  }

  lemma CutPlace(s: seq<nat>, a: seq<nat>, b: seq<nat>)
    requires s == a + b
    ensures s[..|a|] == a && s[|a|..] == b
  {
  }

  lemma AboveIn(p: Path)
    ensures p.Under? ==> Above(p) in UpNodes(p)
  {
  }

  lemma {:induction false} PlugNodes(p: Path, t: Tree)
    ensures Nodes(Plug(p, t)) == Nodes(t) + UpNodes(p)
    decreases p
  {
    if p.Under? {
      PlugNodes(p.up, Join(p.frame, t));
    }
  }

  lemma {:induction false} OrderNodes(t: Tree)
    ensures forall x :: x in InOrder(t) <==> x in Nodes(t)
    decreases t
  {
    if t.Node? {
      OrderNodes(t.left);
      OrderNodes(t.right);
    }
  }

  lemma LowAt(key: map<nat, nat>, s: seq<nat>, n: nat, k: nat)
    requires (forall j | 0 <= j < |s| :: s[j] in key) && n <= |s|
    requires (forall j | 0 <= j < n :: key[s[j]] < k) && (n < |s| ==> key[s[n]] >= k)
    ensures Low(KeysOf(key, s), k) == n
  {
    var ks := KeysOf(key, s);
    LowIs(ks[..n], ks[n..], k);
    assert ks == ks[..n] + ks[n..];
  }

  /** Where the way down ends, in terms of the sorted keys. */
  lemma FoundAt(key: map<nat, nat>, p: Path, t: Tree, k: nat)
    requires var s := InOrder(Plug(p, t)); (forall j | 0 <= j < |s| :: s[j] in key) && Ascending(KeysOf(key, s))
    requires AllBelow(key, Before(p), k) && AllAbove(key, Behind(p), k)
    requires t.Node? ==> t.at in key && key[t.at] == k
    ensures var ks := KeysOf(key, InOrder(Plug(p, t)));
      && (Has(ks, k) <==> t.Node?)
      && Low(ks, k) == |Before(p)| + (if t.Node? then |InOrder(t.left)| else 0)
  {
    var s := InOrder(Plug(p, t));
    PlugSplit(p, t);
    hide Before, Behind, Plug;
    if t.Node? {
      RootAt(p, t);
      FoundHere(key, s, |Before(p)| + |InOrder(t.left)|, k);
    } else {
      LowAt(key, s, |Before(p)|, k);
    }
  }

  lemma FoundHere(key: map<nat, nat>, s: seq<nat>, n: nat, k: nat)
    requires (forall j | 0 <= j < |s| :: s[j] in key) && Ascending(KeysOf(key, s)) && n < |s| && key[s[n]] == k
    ensures Low(KeysOf(key, s), k) == n && Has(KeysOf(key, s), k)
  {
    forall j | 0 <= j < n ensures key[s[j]] < k {
      assert KeysOf(key, s)[j] < KeysOf(key, s)[n];
    }
    LowAt(key, s, n, k);
  }

  /** Adding an item between the lower and the higher ones. */
  lemma AddedItems<V>(key: map<nat, nat>, val: map<nat, V>, a: seq<nat>, b: seq<nat>, at: nat, k: nat, v: V)
    requires forall j | 0 <= j < |a + b| :: (a + b)[j] in key && (a + b)[j] in val && (a + b)[j] != at
    requires AllBelow(key, a, k) && AllAbove(key, b, k) && Ascending(KeysOf(key, a + b))
    ensures var s := a + [at] + b;
      && (forall j | 0 <= j < |s| :: s[j] in key[at := k] && s[j] in val[at := v])
      && Ascending(KeysOf(key[at := k], s))
      && ItemsOf(key[at := k], val[at := v], s) == ItemsOf(key, val, a + b)[..|a|] + [Item(k, v)] + ItemsOf(key, val, a + b)[|a|..]
  {
    var s, ks := a + [at] + b, key[at := k];
    forall j | 0 <= j < |s| ensures s[j] in ks && s[j] in val[at := v] {
      AddedKey(key, a, b, at, k, j);
    }
    forall i, j | 0 <= i < j < |KeysOf(ks, s)| ensures KeysOf(ks, s)[i] < KeysOf(ks, s)[j] {
      AddedKey(key, a, b, at, k, i);
      AddedKey(key, a, b, at, k, j);
      if i != |a| && j != |a| {
        var x, y := Old(|a|, i), Old(|a|, j);
        assert KeysOf(key, a + b)[x] < KeysOf(key, a + b)[y];
      }
    }
  }

  /** The place of entry `i` before a new one came in at `n`. */
  function Old(n: nat, i: nat): nat {
    if i <= n then i else i - 1
  }

  lemma AddedKey(key: map<nat, nat>, a: seq<nat>, b: seq<nat>, at: nat, k: nat, j: nat)
    requires forall j | 0 <= j < |a + b| :: (a + b)[j] in key && (a + b)[j] != at
    requires AllBelow(key, a, k) && AllAbove(key, b, k) && j < |a + [at] + b|
    ensures var s, ks := a + [at] + b, key[at := k];
      && s[j] in ks && (j == |a| ==> s[j] == at && ks[s[j]] == k)
      && (j != |a| ==> Old(|a|, j) < |a + b| && s[j] == (a + b)[Old(|a|, j)] && ks[s[j]] == key[s[j]])
      && (j < |a| ==> ks[s[j]] < k) && (j > |a| ==> ks[s[j]] > k)
  {
    if j > |a| {
      assert (a + [at] + b)[j] == b[j - |a| - 1] == (a + b)[j - 1];
    }
  }

  /** In a sorted tree the keys left and right of a node lie on their sides. */
  lemma SideKeys(key: map<nat, nat>, tree: Tree, p: Path, t: Tree, k: nat)
    requires Plug(p, t) == tree && t.Node? && AllBelow(key, Before(p), k) && AllAbove(key, Behind(p), k)
    requires (forall i | 0 <= i < |InOrder(tree)| :: InOrder(tree)[i] in key) && Ascending(KeysOf(key, InOrder(tree)))
    ensures t.at in key
    ensures k < key[t.at] ==> AllAbove(key, Behind(Under(Frame(true, t.at, t.red, t.right), p)), k)
    ensures k > key[t.at] ==> AllBelow(key, Before(Under(Frame(false, t.at, t.red, t.left), p)), k)
  {
    RootAt(p, t);
    var s, i := InOrder(tree), |Before(p)| + |InOrder(t.left)|;
    hide InOrder, Plug;
    LaterKeys(key, s, i, InOrder(t.right), Behind(p));
    EarlierKeys(key, s, i, Before(p), InOrder(t.left));
    hide Ascending, KeysOf;
    JoinKeys(key, t.at, InOrder(t.left), InOrder(t.right), Before(p), Behind(p), k);
  }

  lemma JoinKeys(key: map<nat, nat>, x: nat, l: seq<nat>, r: seq<nat>, a: seq<nat>, b: seq<nat>, k: nat)
    requires x in key && AllBelow(key, l, key[x]) && AllAbove(key, r, key[x]) && AllBelow(key, a, k) && AllAbove(key, b, k)
    ensures k < key[x] ==> AllAbove(key, ([x] + r) + b, k)
    ensures k > key[x] ==> AllBelow(key, a + (l + [x]), k)
  {
  }

  lemma LaterKeys(key: map<nat, nat>, s: seq<nat>, i: nat, a: seq<nat>, b: seq<nat>)
    requires (forall j | 0 <= j < |s| :: s[j] in key) && Ascending(KeysOf(key, s)) && i < |s| && s[i + 1..] == a + b
    ensures AllAbove(key, a, key[s[i]])
  {
    forall j | 0 <= j < |a| ensures a[j] in key && key[a[j]] > key[s[i]] {
      assert a[j] == s[i + 1..][j] == s[i + 1 + j];
      assert KeysOf(key, s)[i] < KeysOf(key, s)[i + 1 + j];
    }
  }

  lemma EarlierKeys(key: map<nat, nat>, s: seq<nat>, i: nat, a: seq<nat>, b: seq<nat>)
    requires (forall j | 0 <= j < |s| :: s[j] in key) && Ascending(KeysOf(key, s)) && i < |s| && s[..i] == a + b
    ensures AllBelow(key, b, key[s[i]])
  {
    forall j | 0 <= j < |b| ensures b[j] in key && key[b[j]] < key[s[i]] {
      assert b[j] == s[..i][|a| + j] == s[|a| + j];
      assert KeysOf(key, s)[|a| + j] < KeysOf(key, s)[i];
    }
  }
}
