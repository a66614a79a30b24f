/** rb_first, rb_last, rb_next and rb_prev of tool/lib/rbtree.c. */
module RbWalk {
  import opened RbTree
  import opened RbInsert
  import opened RbErase
  import opened RbRemove

  /** Entry `k` of a list of nodes, or null past its ends. */
  function Entry(s: seq<nat>, k: int): nat {
    if 0 <= k < |s| then s[k] else NULL
  }

  /** The subtree whose root is entry `i` of the order. */
  lemma {:induction false} ViewAt(p0: Path, t0: Tree, i: nat) returns (p: Path, t: Tree)
    requires |Before(p0)| <= i < |Before(p0)| + |InOrder(t0)|
    ensures Plug(p, t) == Plug(p0, t0) && t.Node? && |Before(p)| + |InOrder(t.left)| == i
    decreases t0
  {
    var l := |InOrder(t0.left)|;
    if i < |Before(p0)| + l {
      p, t := ViewAt(Under(Frame(true, t0.at, t0.red, t0.right), p0), t0.left, i);
    } else if i > |Before(p0)| + l {
      p, t := ViewAt(Under(Frame(false, t0.at, t0.red, t0.left), p0), t0.right, i);
    } else {
      p, t := p0, t0;
    }
  }

  lemma {:induction false} FromTop(h: Memory, root: nat, p: Path, t: Tree)
    requires Holds(h, root, Top, Plug(p, t))
    ensures Holds(h, root, p, t)
    decreases p
  {
    hide Holds;
    if p.Under? {
      FromTop(h, root, p.up, Join(p.frame, t));
      Move(h, root, p.frame, p.up, t);
    }
  }

  /** The root of the subtree in view, by its place in the order. */
  lemma RootAt(p: Path, t: Tree)
    requires t.Node?
    ensures var s, i := InOrder(Plug(p, t)), |Before(p)| + |InOrder(t.left)|;
      i < |s| && s[i] == t.at && s[i + 1..] == InOrder(t.right) + Behind(p) && s[..i] == Before(p) + InOrder(t.left)
  {
    PlugSplit(p, t);
    Group(Before(p), InOrder(t.left), t.at, InOrder(t.right), Behind(p));
    CutAt(Before(p) + InOrder(t.left), t.at, InOrder(t.right) + Behind(p));
    hide Before, Behind, Plug;
  }

  lemma Group(b: seq<nat>, l: seq<nat>, x: nat, r: seq<nat>, e: seq<nat>)
    ensures b + (l + [x] + r) + e == (b + l) + [x] + (r + e)
  {
  }

  lemma CutAt(a: seq<nat>, x: nat, b: seq<nat>)
    ensures var s := a + [x] + b; s[|a|] == x && s[..|a|] == a && s[|a| + 1..] == b
  {
  }

  /** Down to the left as far as possible. */
  method Leftmost(r: RbRoot, at: nat, ghost p: Path, ghost t: Tree) returns (node: nat)
    requires Holds(r.node, r.root, p, t) && t.Node? && t.at == at
    ensures InOrder(t) != [] && node == InOrder(t)[0]
  {
    node := at;
    ghost var q, s := p, t;
    ViewLinks(r.node, r.root, q, s);
    hide Holds;
    while r.node[node].left != NULL
      invariant Holds(r.node, r.root, q, s) && s.Node? && node == s.at && node in r.node
      invariant r.node[node].left == Addr(s.left) && (s.left.Node? ==> s.left.at != NULL)
      invariant InOrder(s) != [] && InOrder(t) != [] && InOrder(s)[0] == InOrder(t)[0]
      decreases s
    {
      node := r.node[node].left;
      ghost var f := Frame(true, s.at, s.red, s.right);
      Move(r.node, r.root, f, q, s.left);
      q, s := Under(f, q), s.left;
      ViewLinks(r.node, r.root, q, s);
    }
  }

  method Rightmost(r: RbRoot, at: nat, ghost p: Path, ghost t: Tree) returns (node: nat)
    requires Holds(r.node, r.root, p, t) && t.Node? && t.at == at
    ensures InOrder(t) != [] && node == InOrder(t)[|InOrder(t)| - 1]
  {
    node := at;
    ghost var q, s := p, t;
    ViewLinks(r.node, r.root, q, s);
    hide Holds;
    while r.node[node].right != NULL
      invariant Holds(r.node, r.root, q, s) && s.Node? && node == s.at && node in r.node
      invariant r.node[node].right == Addr(s.right) && (s.right.Node? ==> s.right.at != NULL)
      invariant InOrder(s) != [] && InOrder(t) != [] && InOrder(s)[|InOrder(s)| - 1] == InOrder(t)[|InOrder(t)| - 1]
      decreases s
    {
      node := r.node[node].right;
      ghost var f := Frame(false, s.at, s.red, s.left);
      Move(r.node, r.root, f, q, s.right);
      q, s := Under(f, q), s.right;
      ViewLinks(r.node, r.root, q, s);
    }
  }

  method First(r: RbRoot, ghost t: Tree) returns (node: nat)
    requires Holds(r.node, r.root, Top, t)
    ensures node == Entry(InOrder(t), 0)
  {
    Links(r.node, r.root, Top, t);
    node := r.root;
    if node != NULL {
      node := Leftmost(r, node, Top, t);
    }
  }

  method Last(r: RbRoot, ghost t: Tree) returns (node: nat)
    requires Holds(r.node, r.root, Top, t)
    ensures node == Entry(InOrder(t), |InOrder(t)| - 1)
  {
    Links(r.node, r.root, Top, t);
    node := r.root;
    if node != NULL {
      node := Rightmost(r, node, Top, t);
    }
  }

  /** Up as long as the node is a right child. */
  method UpFromRight(r: RbRoot, at: nat, ghost p: Path, ghost t: Tree) returns (node: nat)
    requires Holds(r.node, r.root, p, t) && t.Node? && t.at == at
    ensures node == Entry(Behind(p), 0)
  {
    var cur := at;
    ghost var q, s := p, t;
    Links(r.node, r.root, q, s);
    hide Holds;
    while r.node[cur].parent != NULL && r.node[r.node[cur].parent].right == cur
      invariant Holds(r.node, r.root, q, s) && s.Node? && cur == s.at && cur in r.node && r.node[cur].parent == Above(q)
      invariant q.Under? <==> Above(q) != NULL
      invariant q.Under? ==> Above(q) in r.node && r.node[Above(q)] == FrameNode(q.frame, Above(q.up), cur) && cur != Addr(q.frame.sib)
      invariant Behind(q) == Behind(p)
      decreases Depth(q)
    {
      cur := r.node[cur].parent;
      Move(r.node, r.root, q.frame, q.up, s);
      q, s := q.up, Join(q.frame, s);
      Links(r.node, r.root, q, s);
    }
    node := r.node[cur].parent;
  }

  method UpFromLeft(r: RbRoot, at: nat, ghost p: Path, ghost t: Tree) returns (node: nat)
    requires Holds(r.node, r.root, p, t) && t.Node? && t.at == at
    ensures node == Entry(Before(p), |Before(p)| - 1)
  {
    var cur := at;
    ghost var q, s := p, t;
    Links(r.node, r.root, q, s);
    hide Holds;
    while r.node[cur].parent != NULL && r.node[r.node[cur].parent].left == cur
      invariant Holds(r.node, r.root, q, s) && s.Node? && cur == s.at && cur in r.node && r.node[cur].parent == Above(q)
      invariant q.Under? <==> Above(q) != NULL
      invariant q.Under? ==> Above(q) in r.node && r.node[Above(q)] == FrameNode(q.frame, Above(q.up), cur) && cur != Addr(q.frame.sib)
      invariant Before(q) == Before(p)
      decreases Depth(q)
    {
      cur := r.node[cur].parent;
      Move(r.node, r.root, q.frame, q.up, s);
      q, s := q.up, Join(q.frame, s);
      Links(r.node, r.root, q, s);
    }
    node := r.node[cur].parent;
  }

  /** rb_next is the successor in the order. */
  method Next(r: RbRoot, at: nat, ghost t: Tree, ghost i: nat) returns (node: nat)
    requires Holds(r.node, r.root, Top, t) && i < |InOrder(t)| && at == InOrder(t)[i]
    ensures node == Entry(InOrder(t), i + 1)
  {
    ghost var p, s := ViewAt(Top, t, i);
    RootAt(p, s);
    FromTop(r.node, r.root, p, s);
    ViewLinks(r.node, r.root, p, s);
    Links(r.node, r.root, p, s);
    GrandLinks(r.node, r.root, p, s);
    hide Holds;
    if r.node[at].parent == at {
      return NULL;
    }
    if r.node[at].right != NULL {
      node := Leftmost(r, r.node[at].right, Under(Frame(false, s.at, s.red, s.left), p), s.right);
    } else {
      node := UpFromRight(r, at, p, s);
    }
    hide InOrder;
    FirstOf(InOrder(t), i, InOrder(s.right), Behind(p));
  }

  lemma FirstOf(s: seq<nat>, i: nat, a: seq<nat>, b: seq<nat>)
    requires i < |s| && s[i + 1..] == a + b
    ensures Entry(s, i + 1) == if a != [] then a[0] else Entry(b, 0)
  {
    if i + 1 < |s| {
      assert s[i + 1] == s[i + 1..][0];
    }
  }

  lemma LastOf(s: seq<nat>, i: nat, a: seq<nat>, b: seq<nat>)
    requires i < |s| && s[..i] == a + b
    ensures Entry(s, i - 1) == if b != [] then b[|b| - 1] else Entry(a, |a| - 1)
  {
    if i > 0 {
      assert s[i - 1] == s[..i][i - 1];
    }
  }

  /** rb_prev is the predecessor. */
  method Prev(r: RbRoot, at: nat, ghost t: Tree, ghost i: nat) returns (node: nat)
    requires Holds(r.node, r.root, Top, t) && i < |InOrder(t)| && at == InOrder(t)[i]
    ensures node == Entry(InOrder(t), i - 1)
  {
    ghost var p, s := ViewAt(Top, t, i);
    RootAt(p, s);
    FromTop(r.node, r.root, p, s);
    ViewLinks(r.node, r.root, p, s);
    Links(r.node, r.root, p, s);
    GrandLinks(r.node, r.root, p, s);
    hide Holds;
    if r.node[at].parent == at {
      return NULL;
    }
    if r.node[at].left != NULL {
      node := Rightmost(r, r.node[at].left, Under(Frame(true, s.at, s.red, s.right), p), s.left);
    } else {
      node := UpFromLeft(r, at, p, s);
    }
    hide InOrder;
    LastOf(InOrder(t), i, Before(p), InOrder(s.left));
  }
}
