/** __rb_erase_color of tool/lib/rbtree.c: a subtree that is one black node too low
    is brought up again. */
module RbErase {
  import opened RbTree
  import opened RbInsert

  /** All rules hold around the subtree, which is one black node lower than its
      place asks for; its root may be red below a red parent. */
  ghost predicate Short(p: Path, t: Tree, n: int) {
    Height(t, n) && UpOk(p, n + 1) && (t.Node? ==> Colored(t.left) && Colored(t.right))
  }

  lemma {:induction false} HeightNat(t: Tree, n: int)
    requires Height(t, n)
    ensures n >= 0 && (t.Node? && !t.red ==> n > 0)
    decreases t
  {
    if t.Node? {
      HeightNat(t.left, n - Weight(t.red));
    }
  }

  /** The sibling of a short subtree is there. */
  lemma SiblingThere(f: Frame, up: Path, t: Tree, n: int)
    requires Short(Under(f, up), t, n)
    ensures f.sib.Node? && Height(f.sib, n + 1) && Colored(f.sib) && UpOk(up, n + 1 + Weight(f.red))
    ensures f.red ==> !f.sib.red
    ensures !f.sib.red ==> Height(f.sib.left, n) && Height(f.sib.right, n)
  {
    HeightNat(t, n);
    hide UpOk;
  }

  /** What the memory says of a node in view and of its children. */
  lemma ViewLinks(h: Memory, root: nat, p: Path, t: Tree)
    requires t.Node? && Holds(h, root, p, t)
    ensures t.at in h && h[t.at] == RbNode(t.red, Above(p), Addr(t.left), Addr(t.right)) && t.at != NULL
    ensures t.left.Node? ==> t.left.at in h && t.left.at != NULL
                             && h[t.left.at] == RbNode(t.left.red, t.at, Addr(t.left.left), Addr(t.left.right))
    ensures t.right.Node? ==> t.right.at in h && t.right.at != NULL
                              && h[t.right.at] == RbNode(t.right.red, t.at, Addr(t.right.left), Addr(t.right.right))
    ensures t.left.Node? && t.right.Node? ==> t.left.at != t.right.at
    ensures p.Top? ==> root == t.at
  {
    Links(h, root, p, t);
    ApartChildren(h, root, p, t);
    var f, g := Frame(true, t.at, t.red, t.right), Frame(false, t.at, t.red, t.left);
    Move(h, root, f, p, t.left);
    Move(h, root, g, p, t.right);
    Links(h, root, Under(f, p), t.left);
    Links(h, root, Under(g, p), t.right);
    hide Holds;
  }

  /** A child of the node in view and its children. */
  lemma GrandLinks(h: Memory, root: nat, p: Path, t: Tree)
    requires t.Node? && Holds(h, root, p, t)
    ensures t.right.Node? ==> Holds(h, root, Under(Frame(false, t.at, t.red, t.left), p), t.right)
    ensures t.left.Node? ==> Holds(h, root, Under(Frame(true, t.at, t.red, t.right), p), t.left)
  {
    hide Holds;
    Move(h, root, Frame(true, t.at, t.red, t.right), p, t.left);
    Move(h, root, Frame(false, t.at, t.red, t.left), p, t.right);
  }

  // ------------------------------------------------- the short side is the left

  /** The sibling is red: the parent is turned down, and the new sibling is black. */
  method RedSiblingLeft(r: RbRoot, parent: nat, other: nat, ghost f: Frame, ghost up: Path, ghost t: Tree, ghost n: int)
    returns (sibling: nat, ghost f2: Frame, ghost up2: Path)
    requires Short(Under(f, up), t, n) && f.isLeft && IsRed(f.sib)
    requires parent == f.at && other == f.sib.at && Holds(r.node, r.root, up, Join(f, t))
    modifies r
    ensures Short(Under(f2, up2), t, n) && f2.isLeft && !IsRed(f2.sib) && f2.at == parent && f2.red
    ensures f2.sib.Node? && sibling == f2.sib.at && Holds(r.node, r.root, up2, Join(f2, t))
    ensures up2.Under? && up2.up == up && InOrder(Join(up2.frame, Join(f2, t))) == InOrder(Join(f, t))
  {
    SiblingThere(f, up, t, n);
    ApartChildren(r.node, r.root, up, Join(f, t));
    hide Holds;
    ghost var o := f.sib;
    SetChild(r, other, false, up, Join(f, t));
    r.SetColor(parent, true, up, Node(t, f.at, f.red, o.(red := false)));
    r.RotateLeft(parent, up, Node(t, f.at, true, o.(red := false)));
    f2 := Frame(true, f.at, true, o.left);
    up2 := Under(Frame(true, o.at, false, o.right), up);
    Move(r.node, r.root, up2.frame, up, Join(f2, t));
    ViewLinks(r.node, r.root, up2, Join(f2, t));
    sibling := r.node[parent].right;
    RedSiblingOrder(f, t);
    RedSiblingShort(f, up, t, n);
    SiblingThere(f2, up2, t, n);
  }

  lemma RedSiblingShort(f: Frame, up: Path, t: Tree, n: int)
    requires Short(Under(f, up), t, n) && IsRed(f.sib)
    ensures var o := f.sib;
      f.isLeft ==> Short(Under(Frame(true, f.at, true, o.left), Under(Frame(true, o.at, false, o.right), up)), t, n) && !IsRed(o.left)
    ensures var o := f.sib;
      !f.isLeft ==> Short(Under(Frame(false, f.at, true, o.right), Under(Frame(false, o.at, false, o.left), up)), t, n) && !IsRed(o.right)
  {
    var o := f.sib;
    assert Height(o.left, n + 1) && Height(o.right, n + 1) && Colored(o.left) && Colored(o.right);
    if f.isLeft {
      assert UpOk(Under(Frame(true, o.at, false, o.right), up), n + 1);
    } else {
      assert UpOk(Under(Frame(false, o.at, false, o.left), up), n + 1);
    }
  }

  lemma RedSiblingOrder(f: Frame, t: Tree)
    requires f.sib.Node?
    ensures var o := f.sib;
      f.isLeft ==> InOrder(Node(Node(t, f.at, true, o.left), o.at, false, o.right)) == InOrder(Join(f, t))
    ensures var o := f.sib;
      !f.isLeft ==> InOrder(Node(o.left, o.at, false, Node(o.right, f.at, true, t))) == InOrder(Join(f, t))
  {
    var o := f.sib;
    if f.isLeft {
      SameOrder(t, f.at, o.left, o.at, o.right, true, false);
    } else {
      SameOrder(o.left, o.at, o.right, f.at, t, false, true);
    }
  }

  /** The sibling and its children are black: the sibling turns red, and the parent's
      subtree is the short one. */
  lemma SiblingReddened(f: Frame, up: Path, t: Tree, n: int)
    requires Short(Under(f, up), t, n) && !IsRed(t) && f.sib.Node? && !f.sib.red && !IsRed(f.sib.left) && !IsRed(f.sib.right)
    ensures Short(up, Join(f.(sib := f.sib.(red := true)), t), n + Weight(f.red))
    ensures InOrder(Join(f.(sib := f.sib.(red := true)), t)) == InOrder(Join(f, t))
  {
    SiblingThere(f, up, t, n);
    assert Height(f.sib.(red := true), n) && Colored(f.sib.(red := true)) && Colored(t);
    assert InOrder(f.sib.(red := true)) == InOrder(f.sib);
  }

  /** The sibling has a red child on the far side: one turn of the parent ends it. */
  function EndLeft(f: Frame, t: Tree): Tree
    requires f.sib.Node? && f.sib.right.Node?
  {
    Node(Node(t, f.at, false, f.sib.left), f.sib.at, f.red, f.sib.right.(red := false))
  }

  function EndRight(f: Frame, t: Tree): Tree
    requires f.sib.Node? && f.sib.left.Node?
  {
    Node(f.sib.left.(red := false), f.sib.at, f.red, Node(f.sib.right, f.at, false, t))
  }

  /** What is known when that turn is due. */
  ghost predicate FarRed(f: Frame, up: Path, t: Tree, n: int) {
    && Height(t, n) && Colored(t) && !IsRed(t) && UpOk(up, n + 1 + Weight(f.red)) && (f.red ==> up.Under? && !up.frame.red)
    && f.sib.Node? && Height(f.sib.left, n) && Height(f.sib.right, n) && Colored(f.sib.left) && Colored(f.sib.right)
    && IsRed(if f.isLeft then f.sib.right else f.sib.left)
  }

  lemma EndLeftOk(f: Frame, up: Path, t: Tree, n: int)
    requires FarRed(f, up, t, n) && f.isLeft
    ensures RedBlack(Plug(up, EndLeft(f, t))) && InOrder(EndLeft(f, t)) == InOrder(Join(f, t))
  {
    EndOrder(f, t);
    var o := f.sib.right.(red := false);
    assert Height(o, n + 1) && Colored(o);
    var l := Node(t, f.at, false, f.sib.left);
    assert Height(l, n + 1) && Colored(l);
    assert Height(EndLeft(f, t), n + 1 + Weight(f.red)) && Colored(EndLeft(f, t));
    hide InOrder, UpOk, Height, Colored, RedBlack;
    PlugOk(up, EndLeft(f, t), n + 1 + Weight(f.red));
  }

  lemma EndRightOk(f: Frame, up: Path, t: Tree, n: int)
    requires FarRed(f, up, t, n) && !f.isLeft
    ensures RedBlack(Plug(up, EndRight(f, t))) && InOrder(EndRight(f, t)) == InOrder(Join(f, t))
  {
    EndOrder(f, t);
    var o := f.sib.left.(red := false);
    assert Height(o, n + 1) && Colored(o);
    var l := Node(f.sib.right, f.at, false, t);
    assert Height(l, n + 1) && Colored(l);
    assert Height(EndRight(f, t), n + 1 + Weight(f.red)) && Colored(EndRight(f, t));
    hide InOrder, UpOk, Height, Colored, RedBlack;
    PlugOk(up, EndRight(f, t), n + 1 + Weight(f.red));
  }

  lemma EndOrder(f: Frame, t: Tree)
    requires f.sib.Node?
    ensures f.isLeft && f.sib.right.Node? ==> InOrder(EndLeft(f, t)) == InOrder(Join(f, t))
    ensures !f.isLeft && f.sib.left.Node? ==> InOrder(EndRight(f, t)) == InOrder(Join(f, t))
  {
    var o := f.sib;
    if f.isLeft && o.right.Node? {
      assert InOrder(o.right.(red := false)) == InOrder(o.right);
      SameOrder(t, f.at, o.left, o.at, o.right.(red := false), false, f.red);
    }
    if !f.isLeft && o.left.Node? {
      assert InOrder(o.left.(red := false)) == InOrder(o.left);
      SameOrder(o.left.(red := false), o.at, o.right, f.at, t, f.red, false);
    }
  }

  /** The sibling after its own turn, when the near child is the red one. */
  function NearTurned(f: Frame): Tree
    requires f.sib.Node?
    requires f.isLeft && !IsRed(f.sib.right) ==> f.sib.left.Node?
    requires !f.isLeft && !IsRed(f.sib.left) ==> f.sib.right.Node?
  {
    var o := f.sib;
    if f.isLeft then if IsRed(o.right) then o else RotatedRight(Node(o.left.(red := false), o.at, true, o.right))
    else if IsRed(o.left) then o else RotatedLeft(Node(o.left, o.at, true, o.right.(red := false)))
  }

  lemma NearOk(f: Frame, up: Path, t: Tree, n: int)
    requires Short(Under(f, up), t, n) && !IsRed(t) && !IsRed(f.sib) && f.sib.Node? && (IsRed(f.sib.left) || IsRed(f.sib.right))
    ensures FarRed(f.(sib := NearTurned(f)), up, t, n)
    ensures InOrder(Join(f.(sib := NearTurned(f)), t)) == InOrder(Join(f, t))
  {
    SiblingThere(f, up, t, n);
    NearOrder(f);
    hide InOrder;
    var o := f.sib;
    assert Height(o.left, n) && Height(o.right, n) && Colored(o.left) && Colored(o.right);
    hide UpOk;
  }

  lemma NearOrder(f: Frame)
    requires f.sib.Node? && (IsRed(f.sib.left) || IsRed(f.sib.right))
    ensures InOrder(NearTurned(f)) == InOrder(f.sib)
  {
    var o := f.sib;
    if f.isLeft && !IsRed(o.right) {
      assert InOrder(o.left.(red := false)) == InOrder(o.left);
      TurnOrder(Node(o.left.(red := false), o.at, true, o.right));
    }
    if !f.isLeft && !IsRed(o.left) {
      assert InOrder(o.right.(red := false)) == InOrder(o.right);
      TurnOrder(Node(o.left, o.at, true, o.right.(red := false)));
    }
  }

  /** The sibling is black and has a red child: at most two turns end it. */
  method EndTurnsLeft(r: RbRoot, parent: nat, other: nat, ghost f: Frame, ghost up: Path, ghost t: Tree, ghost n: int)
    requires Short(Under(f, up), t, n) && f.isLeft && !IsRed(t) && !IsRed(f.sib) && f.sib.Node?
    requires IsRed(f.sib.left) || IsRed(f.sib.right)
    requires parent == f.at && other == f.sib.at && Holds(r.node, r.root, up, Join(f, t))
    modifies r
    ensures Holds(r.node, r.root, up, EndLeft(f.(sib := NearTurned(f)), t))
  {
    hide Holds, Short;
    var o2 := other;
    ghost var o := f.sib;
    GrandLinks(r.node, r.root, up, Join(f, t));
    ghost var down := Under(Frame(false, f.at, f.red, t), up);
    ViewLinks(r.node, r.root, down, o);
    if r.node[other].right == NULL || !r.node[r.node[other].right].red {
      SetChild(r, r.node[other].left, false, down, o);
      o := Painted(o, o.left.at, false);
      r.SetColor(other, true, down, o);
      r.RotateRight(other, down, o.(red := true));
      o := RotatedRight(o.(red := true));
      Move(r.node, r.root, down.frame, up, o);
      ViewLinks(r.node, r.root, up, Node(t, f.at, f.red, o));
      o2 := r.node[parent].right;
    }
    Move(r.node, r.root, down.frame, up, o);
    ghost var w := Node(t, f.at, f.red, o);
    ViewLinks(r.node, r.root, up, w);
    SetChild(r, o2, r.node[parent].red, up, w);
    o := o.(red := f.red);
    r.SetColor(parent, false, up, w.(right := o));
    w := Node(t, f.at, false, o);
    GrandLinks(r.node, r.root, up, w);
    down := Under(Frame(false, f.at, false, t), up);
    ViewLinks(r.node, r.root, down, o);
    SetChild(r, r.node[o2].right, false, down, o);
    o := o.(right := o.right.(red := false));
    Move(r.node, r.root, down.frame, up, o);
    r.RotateLeft(parent, up, Node(t, f.at, false, o));
  }

  /** Where the loop stands: with a subtree still short, or done with the whole tree. */
  datatype Spot = Spot(p: Path, t: Tree, n: int, done: bool)

  ghost predicate At(h: Memory, root: nat, x: Spot, order: seq<nat>, node: nat, parent: nat) {
    && Holds(h, root, x.p, x.t) && InOrder(Plug(x.p, x.t)) == order
    && (if x.done then x.p.Top? && RedBlack(x.t) && node == root
        else Short(x.p, x.t, x.n) && node == Addr(x.t) && parent == Above(x.p))
  }

  /** Of two spots the later one is nearer to the end. */
  function Far(x: Spot): nat {
    if x.done then 0 else Depth(x.p) + (if IsRed(x.t) then 1 else 2)
  }

  lemma EndsHere(h: Memory, root: nat, f: Frame, up: Path, t: Tree, n: int, e: Tree) returns (y: Spot)
    requires Short(Under(f, up), t, n) && !IsRed(t) && !IsRed(f.sib) && f.sib.Node? && (IsRed(f.sib.left) || IsRed(f.sib.right))
    requires FarRed(f.(sib := NearTurned(f)), up, t, n) && Holds(h, root, up, e)
    requires e == (if f.isLeft then EndLeft(f.(sib := NearTurned(f)), t) else EndRight(f.(sib := NearTurned(f)), t))
    ensures At(h, root, y, InOrder(Plug(up, Join(f, t))), root, NULL) && y.done
  {
    hide Holds, Short, RedBlack, InOrder;
    NearOk(f, up, t, n);
    var f2 := f.(sib := NearTurned(f));
    if f.isLeft {
      EndLeftOk(f2, up, t, n);
    } else {
      EndRightOk(f2, up, t, n);
    }
    ToTop(h, root, up, e);
    PlugOrder(up, e, Join(f, t));
    y := Spot(Top, Plug(up, e), n, true);
  }

  /** The sibling is black. */
  method BlackSiblingLeft(r: RbRoot, parent: nat, other: nat, ghost f: Frame, ghost up: Path, ghost t: Tree, ghost n: int)
    returns (node2: nat, parent2: nat, ghost y: Spot, done: bool)
    requires Short(Under(f, up), t, n) && f.isLeft && !IsRed(t) && f.sib.Node? && !IsRed(f.sib)
    requires parent == f.at && other == f.sib.at && Holds(r.node, r.root, up, Join(f, t))
    modifies r
    ensures At(r.node, r.root, y, InOrder(Plug(up, Join(f, t))), node2, parent2) && y.done == done
    ensures done || (y.p == up && (f.red ==> IsRed(y.t)))
  {
    hide Holds, Short, InOrder;
    ViewLinks(r.node, r.root, up, Join(f, t));
    GrandLinks(r.node, r.root, up, Join(f, t));
    ViewLinks(r.node, r.root, Under(Frame(false, f.at, f.red, t), up), f.sib);
    parent2 := NULL;
    if (r.node[other].left == NULL || !r.node[r.node[other].left].red) && (r.node[other].right == NULL || !r.node[r.node[other].right].red) {
      SetChild(r, other, true, up, Join(f, t));
      SiblingReddened(f, up, t, n);
      y := Spot(up, Join(f.(sib := f.sib.(red := true)), t), n + Weight(f.red), false);
      PlugOrder(up, y.t, Join(f, t));
      Links(r.node, r.root, up, y.t);
      node2, done := parent, false;
      parent2 := r.node[node2].parent;
    } else {
      EndTurnsLeft(r, parent, other, f, up, t, n);
      NearOk(f, up, t, n);
      y := EndsHere(r.node, r.root, f, up, t, n, EndLeft(f.(sib := NearTurned(f)), t));
      node2, done := r.root, true;
    }
  }

  method StepLeft(r: RbRoot, parent: nat, ghost x: Spot) returns (node2: nat, parent2: nat, ghost y: Spot, done: bool)
    requires Short(x.p, x.t, x.n) && x.p.Under? && x.p.frame.isLeft && !IsRed(x.t) && !x.done
    requires parent == x.p.frame.at && Holds(r.node, r.root, x.p, x.t)
    modifies r
    ensures At(r.node, r.root, y, InOrder(Plug(x.p, x.t)), node2, parent2) && y.done == done && Far(y) < Far(x)
  {
    ghost var f, up, t, n := x.p.frame, x.p.up, x.t, x.n;
    Move(r.node, r.root, f, up, t);
    SiblingThere(f, up, t, n);
    ViewLinks(r.node, r.root, up, Join(f, t));
    hide Holds, Short, InOrder, At;
    var other := r.node[parent].right;
    if r.node[other].red {
      ghost var w := Join(f, t);
      other, f, up := RedSiblingLeft(r, parent, other, f, up, t, n);
      PlugOrder(up.up, Join(up.frame, Join(f, t)), w);
    }
    node2, parent2, y, done := BlackSiblingLeft(r, parent, other, f, up, t, n);
  }

  // ------------------------------------------------ the short side is the right

  method RedSiblingRight(r: RbRoot, parent: nat, other: nat, ghost f: Frame, ghost up: Path, ghost t: Tree, ghost n: int)
    returns (sibling: nat, ghost f2: Frame, ghost up2: Path)
    requires Short(Under(f, up), t, n) && !f.isLeft && IsRed(f.sib)
    requires parent == f.at && other == f.sib.at && Holds(r.node, r.root, up, Join(f, t))
    modifies r
    ensures Short(Under(f2, up2), t, n) && !f2.isLeft && !IsRed(f2.sib) && f2.at == parent && f2.red
    ensures f2.sib.Node? && sibling == f2.sib.at && Holds(r.node, r.root, up2, Join(f2, t))
    ensures up2.Under? && up2.up == up && InOrder(Join(up2.frame, Join(f2, t))) == InOrder(Join(f, t))
  {
    SiblingThere(f, up, t, n);
    ApartChildren(r.node, r.root, up, Join(f, t));
    hide Holds;
    ghost var o := f.sib;
    SetChild(r, other, false, up, Join(f, t));
    r.SetColor(parent, true, up, Node(o.(red := false), f.at, f.red, t));
    r.RotateRight(parent, up, Node(o.(red := false), f.at, true, t));
    f2 := Frame(false, f.at, true, o.right);
    up2 := Under(Frame(false, o.at, false, o.left), up);
    Move(r.node, r.root, up2.frame, up, Join(f2, t));
    ViewLinks(r.node, r.root, up2, Join(f2, t));
    sibling := r.node[parent].left;
    RedSiblingOrder(f, t);
    RedSiblingShort(f, up, t, n);
    SiblingThere(f2, up2, t, n);
  }

  method EndTurnsRight(r: RbRoot, parent: nat, other: nat, ghost f: Frame, ghost up: Path, ghost t: Tree, ghost n: int)
    requires Short(Under(f, up), t, n) && !f.isLeft && !IsRed(t) && !IsRed(f.sib) && f.sib.Node?
    requires IsRed(f.sib.left) || IsRed(f.sib.right)
    requires parent == f.at && other == f.sib.at && Holds(r.node, r.root, up, Join(f, t))
    modifies r
    ensures Holds(r.node, r.root, up, EndRight(f.(sib := NearTurned(f)), t))
  {
    hide Holds, Short;
    var o2 := other;
    ghost var o := f.sib;
    GrandLinks(r.node, r.root, up, Join(f, t));
    ghost var down := Under(Frame(true, f.at, f.red, t), up);
    ViewLinks(r.node, r.root, down, o);
    if r.node[other].left == NULL || !r.node[r.node[other].left].red {
      SetChild(r, r.node[other].right, false, down, o);
      o := Painted(o, o.right.at, false);
      r.SetColor(other, true, down, o);
      r.RotateLeft(other, down, o.(red := true));
      o := RotatedLeft(o.(red := true));
      Move(r.node, r.root, down.frame, up, o);
      ViewLinks(r.node, r.root, up, Node(o, f.at, f.red, t));
      o2 := r.node[parent].left;
    }
    Move(r.node, r.root, down.frame, up, o);
    ghost var w := Node(o, f.at, f.red, t);
    ViewLinks(r.node, r.root, up, w);
    SetChild(r, o2, r.node[parent].red, up, w);
    o := o.(red := f.red);
    r.SetColor(parent, false, up, w.(left := o));
    w := Node(o, f.at, false, t);
    GrandLinks(r.node, r.root, up, w);
    down := Under(Frame(true, f.at, false, t), up);
    ViewLinks(r.node, r.root, down, o);
    SetChild(r, r.node[o2].left, false, down, o);
    o := o.(left := o.left.(red := false));
    Move(r.node, r.root, down.frame, up, o);
    r.RotateRight(parent, up, Node(o, f.at, false, t));
  }

  method BlackSiblingRight(r: RbRoot, parent: nat, other: nat, ghost f: Frame, ghost up: Path, ghost t: Tree, ghost n: int)
    returns (node2: nat, parent2: nat, ghost y: Spot, done: bool)
    requires Short(Under(f, up), t, n) && !f.isLeft && !IsRed(t) && f.sib.Node? && !IsRed(f.sib)
    requires parent == f.at && other == f.sib.at && Holds(r.node, r.root, up, Join(f, t))
    modifies r
    ensures At(r.node, r.root, y, InOrder(Plug(up, Join(f, t))), node2, parent2) && y.done == done
    ensures done || (y.p == up && (f.red ==> IsRed(y.t)))
  {
    hide Holds, Short, InOrder;
    ViewLinks(r.node, r.root, up, Join(f, t));
    GrandLinks(r.node, r.root, up, Join(f, t));
    ViewLinks(r.node, r.root, Under(Frame(true, f.at, f.red, t), up), f.sib);
    parent2 := NULL;
    if (r.node[other].left == NULL || !r.node[r.node[other].left].red) && (r.node[other].right == NULL || !r.node[r.node[other].right].red) {
      SetChild(r, other, true, up, Join(f, t));
      SiblingReddened(f, up, t, n);
      y := Spot(up, Join(f.(sib := f.sib.(red := true)), t), n + Weight(f.red), false);
      PlugOrder(up, y.t, Join(f, t));
      Links(r.node, r.root, up, y.t);
      node2, done := parent, false;
      parent2 := r.node[node2].parent;
    } else {
      EndTurnsRight(r, parent, other, f, up, t, n);
      NearOk(f, up, t, n);
      y := EndsHere(r.node, r.root, f, up, t, n, EndRight(f.(sib := NearTurned(f)), t));
      node2, done := r.root, true;
    }
  }

  method StepRight(r: RbRoot, parent: nat, ghost x: Spot) returns (node2: nat, parent2: nat, ghost y: Spot, done: bool)
    requires Short(x.p, x.t, x.n) && x.p.Under? && !x.p.frame.isLeft && !IsRed(x.t) && !x.done
    requires parent == x.p.frame.at && Holds(r.node, r.root, x.p, x.t)
    modifies r
    ensures At(r.node, r.root, y, InOrder(Plug(x.p, x.t)), node2, parent2) && y.done == done && Far(y) < Far(x)
  {
    ghost var f, up, t, n := x.p.frame, x.p.up, x.t, x.n;
    Move(r.node, r.root, f, up, t);
    SiblingThere(f, up, t, n);
    ViewLinks(r.node, r.root, up, Join(f, t));
    hide Holds, Short, InOrder, At;
    var other := r.node[parent].left;
    if r.node[other].red {
      ghost var w := Join(f, t);
      other, f, up := RedSiblingRight(r, parent, other, f, up, t, n);
      PlugOrder(up.up, Join(up.frame, Join(f, t)), w);
    }
    node2, parent2, y, done := BlackSiblingRight(r, parent, other, f, up, t, n);
  }

  // ------------------------------------------------------------------ the loop

  /** What the loop reads before it decides. */
  lemma SpotLinks(h: Memory, root: nat, x: Spot, order: seq<nat>, node: nat, parent: nat)
    requires At(h, root, x, order, node, parent) && !x.done
    ensures node == NULL <==> x.t.Leaf?
    ensures x.t.Node? ==> node in h && h[node].red == x.t.red
    ensures node == root <==> x.p.Top?
    ensures x.p.Under? ==> parent == x.p.frame.at && parent in h && (h[parent].left == node <==> x.p.frame.isLeft)
  {
    Links(h, root, x.p, x.t);
    if x.p.Under? {
      SiblingThere(x.p.frame, x.p.up, x.t, x.n);
    }
    hide Holds, Short;
  }

  /** __rb_erase_color: in the end all rules hold, and the order of the nodes is the
      same. */
  method EraseColor(r: RbRoot, node0: nat, parent0: nat, ghost p0: Path, ghost t0: Tree, ghost n0: int) returns (ghost t: Tree)
    requires Short(p0, t0, n0) && Holds(r.node, r.root, p0, t0) && node0 == Addr(t0) && parent0 == Above(p0)
    modifies r
    ensures Holds(r.node, r.root, Top, t) && RedBlack(t) && InOrder(t) == InOrder(Plug(p0, t0))
  {
    hide Holds, Short, InOrder;
    var node, parent, done := node0, parent0, false;
    ghost var order := InOrder(Plug(p0, t0));
    ghost var x := Spot(p0, t0, n0, false);
    SpotLinks(r.node, r.root, x, order, node, parent);
    while !done && (node == NULL || !r.node[node].red) && node != r.root
      invariant At(r.node, r.root, x, order, node, parent) && x.done == done
      invariant !done && node != NULL ==> node in r.node
      decreases Far(x)
    {
      SpotLinks(r.node, r.root, x, order, node, parent);
      if r.node[parent].left == node {
        node, parent, x, done := StepLeft(r, parent, x);
      } else {
        node, parent, x, done := StepRight(r, parent, x);
      }
      if !done {
        SpotLinks(r.node, r.root, x, order, node, parent);
      }
    }
    RootView(r.node, r.root, x, order, node, parent);
    if !done {
      SpotLinks(r.node, r.root, x, order, node, parent);
    }
    EndsBlack(r.node, r.root, x, order, node, parent);
    t := x.t;
    if node != NULL {
      r.SetColor(node, false, x.p, x.t);
      t := x.t.(red := false);
    }
    ToTop(r.node, r.root, x.p, t);
    t := Plug(x.p, t);
  }

  lemma RootView(h: Memory, root: nat, x: Spot, order: seq<nat>, node: nat, parent: nat)
    requires At(h, root, x, order, node, parent)
    ensures node == Addr(x.t) && Holds(h, root, x.p, x.t) && (x.t.Node? <==> node != NULL)
  {
    Links(h, root, x.p, x.t);
    hide Holds, Short;
  }

  /** Where the loop stops, blackening the node makes all rules hold. */
  lemma EndsBlack(h: Memory, root: nat, x: Spot, order: seq<nat>, node: nat, parent: nat)
    requires At(h, root, x, order, node, parent) && (x.done || IsRed(x.t) || x.p.Top?)
    ensures var t := if x.t.Node? then x.t.(red := false) else x.t;
      RedBlack(Plug(x.p, t)) && InOrder(Plug(x.p, t)) == order
  {
    var t := if x.t.Node? then x.t.(red := false) else x.t;
    PlugOrder(x.p, t, x.t);
    if IsRed(x.t) && !x.done {
      assert Height(t, x.n + 1) && Colored(t);
      PlugOk(x.p, t, x.n + 1);
    }
  }
}
