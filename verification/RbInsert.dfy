/** The colour rules of tool/lib/rbtree.c and rb_insert_color, which restores them
    after a red node has been linked in. */
module RbInsert {
  import opened RbTree

  predicate IsRed(t: Tree) {
    t.Node? && t.red
  }

  function Weight(red: bool): int {
    if red then 0 else 1
  }

  /** Every way down passes `n` black nodes. */
  ghost predicate Height(t: Tree, n: int) {
    if t.Leaf? then n == 0
    else Height(t.left, n - Weight(t.red)) && Height(t.right, n - Weight(t.red))
  }

  /** No red node has a red child. */
  ghost predicate Colored(t: Tree) {
    t.Node? ==> Colored(t.left) && Colored(t.right) && (t.red ==> !IsRed(t.left) && !IsRed(t.right))
  }

  ghost predicate RedBlack(t: Tree) {
    Colored(t) && !IsRed(t) && exists n :: Height(t, n)
  }

  /** Around the place of a subtree of height `n` the rules hold. */
  ghost predicate UpOk(p: Path, n: int) {
    p.Under? ==>
      && Height(p.frame.sib, n) && Colored(p.frame.sib) && UpOk(p.up, n + Weight(p.frame.red))
      && (p.frame.red ==> !IsRed(p.frame.sib) && p.up.Under? && !p.up.frame.red)
  }

  /** A subtree that fits into its place completes the rules. */
  lemma {:induction false} PlugOk(p: Path, t: Tree, n: int)
    requires UpOk(p, n) && Height(t, n) && Colored(t) && (IsRed(t) ==> p.Under? && !p.frame.red)
    ensures RedBlack(Plug(p, t))
    decreases p
  {
    if p.Under? {
      var j := Join(p.frame, t);
      PlugOk(p.up, j, n + Weight(p.frame.red));
    }
  }

  lemma {:induction false} PlugOrder(p: Path, t: Tree, t2: Tree)
    requires InOrder(t) == InOrder(t2)
    ensures InOrder(Plug(p, t)) == InOrder(Plug(p, t2))
    decreases p
  {
    if p.Under? {
      PlugOrder(p.up, Join(p.frame, t), Join(p.frame, t2));
    }
  }

  lemma {:induction false} ToTop(h: Memory, root: nat, p: Path, t: Tree)
    requires Holds(h, root, p, t)
    ensures Holds(h, root, Top, Plug(p, t))
    decreases p
  {
    hide Holds;
    if p.Under? {
      Move(h, root, p.frame, p.up, t);
      ToTop(h, root, p.up, Join(p.frame, t));
    }
  }

  lemma TurnOrder(t: Tree)
    ensures t.Node? && t.right.Node? ==> InOrder(RotatedLeft(t)) == InOrder(t)
    ensures t.Node? && t.left.Node? ==> InOrder(RotatedRight(t)) == InOrder(t)
  {
    if t.Node? && t.right.Node? {
      SameOrder(t.left, t.at, t.right.left, t.right.at, t.right.right, t.red, t.right.red);
    }
    if t.Node? && t.left.Node? {
      SameOrder(t.left.left, t.left.at, t.left.right, t.at, t.right, t.left.red, t.red);
    }
  }

  lemma SameOrder(a: Tree, x: nat, b: Tree, y: nat, c: Tree, cx: bool, cy: bool)
    ensures InOrder(Node(a, x, cx, Node(b, y, cy, c))) == InOrder(Node(Node(a, x, cx, b), y, cy, c))
  {
    Regroup(InOrder(a), x, InOrder(b), y, InOrder(c));
    assert InOrder(Node(b, y, cy, c)) == InOrder(b) + [y] + InOrder(c);
    assert InOrder(Node(a, x, cx, b)) == InOrder(a) + [x] + InOrder(b);
  }

  lemma Regroup(a: seq<nat>, x: nat, b: seq<nat>, y: nat, c: seq<nat>)
    ensures a + [x] + (b + [y] + c) == (a + [x] + b) + [y] + c
  {
  }

  // --------------------------------------------------- colours of the children

  predicate IsChild(t: Tree, at: nat) {
    t.Node? && ((t.left.Node? && t.left.at == at) || (t.right.Node? && t.right.at == at))
  }

  function Painted(t: Tree, at: nat, red: bool): Tree
    requires IsChild(t, at)
  {
    if t.left.Node? && t.left.at == at then t.(left := t.left.(red := red)) else t.(right := t.right.(red := red))
  }

  /** rb_set_black and rb_set_red of a child of the node in view. */
  method SetChild(r: RbRoot, at: nat, red: bool, ghost p: Path, ghost t: Tree)
    requires IsChild(t, at) && Holds(r.node, r.root, p, t)
    modifies r`node
    ensures Holds(r.node, r.root, p, Painted(t, at, red))
  {
    ghost var left := t.left.Node? && t.left.at == at;
    ghost var f := if left then Frame(true, t.at, t.red, t.right) else Frame(false, t.at, t.red, t.left);
    ghost var c := if left then t.left else t.right;
    Move(r.node, r.root, f, p, c);
    hide Holds;
    r.SetColor(at, red, Under(f, p), c);
    Move(r.node, r.root, f, p, c.(red := red));
  }

  // ------------------------------------------------------------ the fix-up loop

  /** The node the loop looks at is red, and all rules hold but one: its parent may
      be red too. */
  ghost predicate OneRed(p: Path, s: Tree, n: int) {
    IsRed(s) && Colored(s) && Height(s, n) && UpOk(p, n)
  }

  function Lifted(t: Tree): Tree
    requires t.Node? && t.left.Node? && t.right.Node?
  {
    Node(t.left.(red := false), t.at, true, t.right.(red := false))
  }

  /** The uncle is red: the three change colour, and the loop goes on two levels up. */
  method RecolorUp(r: RbRoot, parent: nat, uncle: nat, gparent: nat, ghost up: Path, ghost t: Tree)
    requires Holds(r.node, r.root, up, t) && t.Node? && t.at == gparent && t.left.Node? && t.right.Node? && t.left.at != t.right.at
    requires (parent == t.left.at && uncle == t.right.at) || (parent == t.right.at && uncle == t.left.at)
    modifies r`node
    ensures Holds(r.node, r.root, up, Lifted(t))
  {
    hide Holds;
    SetChild(r, uncle, false, up, t);
    ghost var t1 := Painted(t, uncle, false);
    SetChild(r, parent, false, up, t1);
    r.SetColor(gparent, true, up, Painted(t1, parent, false));
  }

  lemma LiftedOk(f: Frame, g: Frame, up: Path, s: Tree, n: int)
    requires OneRed(Under(f, Under(g, up)), s, n) && f.red && IsRed(g.sib)
    ensures OneRed(up, Lifted(Join(g, Join(f, s))), n + 1)
  {
    assert UpOk(Under(g, up), n);
    var t := Join(f, s);
    var p, u := t.(red := false), g.sib.(red := false);
    assert Height(p, n + 1) && Colored(p) && Height(u, n + 1) && Colored(u);
  }

  lemma LiftedOrder(t: Tree)
    requires t.Node? && t.left.Node? && t.right.Node?
    ensures InOrder(Lifted(t)) == InOrder(t)
  {
    assert InOrder(t.left.(red := false)) == InOrder(t.left) && InOrder(t.right.(red := false)) == InOrder(t.right);
  }

  /** The tree below the grandparent once the colours are changed and it is turned. */
  function RepairedRight(t: Tree): Tree
    requires t.Node? && t.left.Node?
  {
    RotatedRight(Node(t.left.(red := false), t.at, true, t.right))
  }

  function RepairedLeft(t: Tree): Tree
    requires t.Node? && t.right.Node?
  {
    RotatedLeft(Node(t.left, t.at, true, t.right.(red := false)))
  }

  lemma RepairedOk(g: Frame, up: Path, p: Tree, n: int)
    requires IsRed(p) && Height(p, n) && UpOk(Under(g, up), n) && !g.red && !IsRed(g.sib)
    requires Colored(p.left) && Colored(p.right) && (if g.isLeft then IsRed(p.left) && !IsRed(p.right) else IsRed(p.right) && !IsRed(p.left))
    ensures g.isLeft ==> OneRed(Under(Frame(true, p.at, false, Node(p.right, g.at, true, g.sib)), up), p.left, n)
    ensures !g.isLeft ==> OneRed(Under(Frame(false, p.at, false, Node(g.sib, g.at, true, p.left)), up), p.right, n)
  {
  }

  lemma RepairedOrder(g: Frame, p: Tree)
    requires p.Node?
    ensures g.isLeft ==> InOrder(RepairedRight(Join(g, p))) == InOrder(Join(g, p))
    ensures !g.isLeft ==> InOrder(RepairedLeft(Join(g, p))) == InOrder(Join(g, p))
  {
    assert InOrder(p.(red := false)) == InOrder(p);
    if g.isLeft {
      TurnOrder(Node(p.(red := false), g.at, true, g.sib));
    } else {
      TurnOrder(Node(g.sib, g.at, true, p.(red := false)));
    }
  }

  /** The parent is a left child and red, the uncle is not. */
  method FixLeft(r: RbRoot, at: nat, parent: nat, gparent: nat, ghost f: Frame, ghost g: Frame, ghost up: Path, ghost s: Tree,
                 ghost n: int) returns (next: nat, ghost p2: Path, ghost s2: Tree)
    requires OneRed(Under(f, Under(g, up)), s, n) && f.red && g.isLeft && !IsRed(g.sib)
    requires Holds(r.node, r.root, Under(f, Under(g, up)), s) && at == s.at && parent == f.at && gparent == g.at
    modifies r
    ensures Holds(r.node, r.root, p2, s2) && OneRed(p2, s2, n) && s2.at == next
    ensures p2.Under? && p2.up == up && !p2.frame.red && InOrder(Join(p2.frame, s2)) == InOrder(Join(g, Join(f, s)))
  {
    hide Holds, Height, Colored, UpOk;
    next := at;
    var top := parent;
    ghost var h := r.node;
    Links(r.node, r.root, Under(f, Under(g, up)), s);
    Move(r.node, r.root, f, Under(g, up), s);
    ghost var t := Join(f, s);
    if r.node[parent].right == at {
      r.RotateLeft(parent, Under(g, up), t);
      t := RotatedLeft(t);
      top, next := at, parent;
    }
    Move(r.node, r.root, g, up, t);
    SetChild(r, top, false, up, Join(g, t));
    r.SetColor(gparent, true, up, Painted(Join(g, t), top, false));
    r.RotateRight(gparent, up, Node(t.(red := false), g.at, true, g.sib));
    s2 := t.left;
    p2 := Under(Frame(true, t.at, false, Node(t.right, g.at, true, g.sib)), up);
    Move(r.node, r.root, p2.frame, up, s2);
    InnerOk(f, g, up, s, n);
    InnerOrder(f, g, s);
    RepairedOk(g, up, t, n);
    RepairedOrder(g, t);
  }

  /** The parent's tree after the inner turn, if there is one. */
  function InnerTurn(f: Frame, g: Frame, s: Tree): Tree
    requires s.Node?
  {
    var t := Join(f, s);
    if f.isLeft == g.isLeft then t else if g.isLeft then RotatedLeft(t) else RotatedRight(t)
  }

  /** It is red with its one red child outside. */
  lemma InnerOk(f: Frame, g: Frame, up: Path, s: Tree, n: int)
    requires OneRed(Under(f, Under(g, up)), s, n) && f.red
    ensures UpOk(Under(g, up), n) && !g.red
    ensures var u := InnerTurn(f, g, s);
      && IsRed(u) && Height(u, n) && Colored(u.left) && Colored(u.right)
      && (if g.isLeft then IsRed(u.left) && !IsRed(u.right) else IsRed(u.right) && !IsRed(u.left))
  {
    assert Height(s, n) && Height(s.left, n) && Height(s.right, n) && Height(f.sib, n);
    assert Colored(s.left) && Colored(s.right) && !IsRed(s.left) && !IsRed(s.right) && Colored(f.sib) && !IsRed(f.sib);
    hide UpOk;
  }

  lemma InnerOrder(f: Frame, g: Frame, s: Tree)
    requires s.Node?
    ensures InOrder(InnerTurn(f, g, s)) == InOrder(Join(f, s))
  {
    hide InOrder;
    TurnOrder(Join(f, s));
  }

  /** The parent is a right child and red, the uncle is not. */
  method FixRight(r: RbRoot, at: nat, parent: nat, gparent: nat, ghost f: Frame, ghost g: Frame, ghost up: Path, ghost s: Tree,
                  ghost n: int) returns (next: nat, ghost p2: Path, ghost s2: Tree)
    requires OneRed(Under(f, Under(g, up)), s, n) && f.red && !g.isLeft && !IsRed(g.sib)
    requires Holds(r.node, r.root, Under(f, Under(g, up)), s) && at == s.at && parent == f.at && gparent == g.at
    modifies r
    ensures Holds(r.node, r.root, p2, s2) && OneRed(p2, s2, n) && s2.at == next
    ensures p2.Under? && p2.up == up && !p2.frame.red && InOrder(Join(p2.frame, s2)) == InOrder(Join(g, Join(f, s)))
  {
    hide Holds, Height, Colored, UpOk;
    next := at;
    var top := parent;
    Links(r.node, r.root, Under(f, Under(g, up)), s);
    Move(r.node, r.root, f, Under(g, up), s);
    ghost var t := Join(f, s);
    if r.node[parent].left == at {
      r.RotateRight(parent, Under(g, up), t);
      t := RotatedRight(t);
      top, next := at, parent;
    }
    Move(r.node, r.root, g, up, t);
    ApartChildren(r.node, r.root, up, Join(g, t));
    SetChild(r, top, false, up, Join(g, t));
    r.SetColor(gparent, true, up, Painted(Join(g, t), top, false));
    r.RotateLeft(gparent, up, Node(g.sib, g.at, true, t.(red := false)));
    s2 := t.right;
    p2 := Under(Frame(false, t.at, false, Node(g.sib, g.at, true, t.left)), up);
    Move(r.node, r.root, p2.frame, up, s2);
    InnerOk(f, g, up, s, n);
    InnerOrder(f, g, s);
    RepairedOk(g, up, t, n);
    RepairedOrder(g, t);
  }

  lemma ApartChildren(h: Memory, root: nat, p: Path, t: Tree)
    requires t.Node? && Holds(h, root, p, t)
    ensures t.left.Node? && t.right.Node? ==> t.left.at != t.right.at
  {
    RootInside(t.left);
    RootInside(t.right);
  }

  /** One turn of the loop. */
  method FixStep(r: RbRoot, at: nat, ghost p: Path, ghost s: Tree, ghost n: int)
    returns (next: nat, ghost p2: Path, ghost s2: Tree, ghost n2: int)
    requires OneRed(p, s, n) && at == s.at && p.Under? && p.frame.red && Holds(r.node, r.root, p, s)
    modifies r
    ensures Holds(r.node, r.root, p2, s2) && OneRed(p2, s2, n2) && s2.at == next
    ensures Depth(p2) < Depth(p) && InOrder(Plug(p2, s2)) == InOrder(Plug(p, s))
  {
    ghost var f, g, up := p.frame, p.up.frame, p.up.up;
    ghost var whole := Join(g, Join(f, s));
    Links(r.node, r.root, p, s);
    Move(r.node, r.root, f, p.up, s);
    Links(r.node, r.root, p.up, Join(f, s));
    Move(r.node, r.root, g, up, Join(f, s));
    ApartChildren(r.node, r.root, up, whole);
    UncleLinks(r.node, r.root, p, s);
    hide Holds, Height, Colored;
    var parent := r.node[at].parent;
    var gparent := r.node[parent].parent;
    n2 := n;
    if r.node[gparent].left == parent {
      var uncle := r.node[gparent].right;
      if uncle != NULL && r.node[uncle].red {
        RecolorUp(r, parent, uncle, gparent, up, whole);
        next, p2, s2, n2 := gparent, up, Lifted(whole), n + 1;
      } else {
        next, p2, s2 := FixLeft(r, at, parent, gparent, f, g, up, s, n);
      }
    } else {
      var uncle := r.node[gparent].left;
      if uncle != NULL && r.node[uncle].red {
        RecolorUp(r, parent, uncle, gparent, up, whole);
        next, p2, s2, n2 := gparent, up, Lifted(whole), n + 1;
      } else {
        next, p2, s2 := FixRight(r, at, parent, gparent, f, g, up, s, n);
      }
    }
    if IsRed(g.sib) {
      LiftedOk(f, g, up, s, n);
      LiftedOrder(whole);
      PlugOrder(up, s2, whole);
    } else {
      PlugOrder(up, Join(p2.frame, s2), whole);
    }
  }

  /** The uncle as the memory has it. */
  lemma UncleLinks(h: Memory, root: nat, p: Path, s: Tree)
    requires p.Under? && p.up.Under? && Holds(h, root, p, s)
    ensures var u := p.up.frame.sib; Addr(u) == NULL <==> u.Leaf?
    ensures var u := p.up.frame.sib; u.Node? ==> u.at in h && h[u.at].red == u.red
  {
    var g := p.up.frame;
    Move(h, root, p.frame, p.up, s);
    Move(h, root, g, p.up.up, Join(p.frame, s));
    var w := Frame(!g.isLeft, g.at, g.red, Join(p.frame, s));
    Move(h, root, w, p.up.up, g.sib);
    Links(h, root, Under(w, p.up.up), g.sib);
    hide Holds;
  }

  /** rb_insert_color: a red node was linked in as a leaf, or at least where all
      rules hold but for a red parent. In the end all hold, and the order of the
      nodes is the same. */
  method InsertColor(r: RbRoot, at: nat, ghost p0: Path, ghost s0: Tree, ghost n0: int) returns (ghost t: Tree)
    requires OneRed(p0, s0, n0) && at == s0.at && Holds(r.node, r.root, p0, s0)
    modifies r
    ensures Holds(r.node, r.root, Top, t) && RedBlack(t) && InOrder(t) == InOrder(Plug(p0, s0))
  {
    var cur := at;
    ghost var p, s, n := p0, s0, n0;
    Links(r.node, r.root, p, s);
    hide Holds, Height, Colored;
    while r.node[cur].parent != NULL && r.node[r.node[cur].parent].red
      invariant Holds(r.node, r.root, p, s) && OneRed(p, s, n) && s.at == cur
      invariant InOrder(Plug(p, s)) == InOrder(Plug(p0, s0))
      invariant cur in r.node && r.node[cur].parent == Above(p)
      invariant p.Under? <==> Above(p) != NULL
      invariant p.Under? ==> Above(p) in r.node && r.node[Above(p)].red == p.frame.red
      decreases Depth(p)
    {
      cur, p, s, n := FixStep(r, cur, p, s, n);
      Links(r.node, r.root, p, s);
    }
    ToTop(r.node, r.root, p, s);
    t := Plug(p, s);
    PlugIsNode(p, s);
    Links(r.node, r.root, Top, t);
    r.SetColor(r.root, false, Top, t);
    Blackened(p, s, n);
    t := t.(red := false);
  }

  lemma {:induction false} PlugIsNode(p: Path, t: Tree)
    requires t.Node?
    ensures Plug(p, t).Node?
    decreases p
  {
    if p.Under? {
      PlugIsNode(p.up, Join(p.frame, t));
    }
  }

  /** Making the root black repairs what may be left. */
  lemma Blackened(p: Path, s: Tree, n: int)
    requires OneRed(p, s, n) && (p.Under? ==> !p.frame.red)
    ensures Plug(p, s).Node? && RedBlack(Plug(p, s).(red := false))
    ensures InOrder(Plug(p, s).(red := false)) == InOrder(Plug(p, s))
  {
    PlugIsNode(p, s);
    if p.Under? {
      PlugOk(p, s, n);
    } else {
      assert Height(s.(red := false), n + 1);
    }
  }
}
