/** The pointer red-black tree of tool/lib/rbtree.c: nodes with left, right and parent
    links in a memory, rotations, and the fix-up after an insertion. */
module RbTree {
  /** A node lives at a nonzero address; 0 is the null pointer. */
  const NULL: nat := 0

  datatype RbNode = RbNode(red: bool, parent: nat, left: nat, right: nat)
  type Memory = map<nat, RbNode>

  /** What a piece of the memory is to represent. */
  datatype Tree = Leaf | Node(left: Tree, at: nat, red: bool, right: Tree)

  /** The way from a subtree up to the root: on which side of its parent it hangs,
      that parent, and the parent's other subtree. */
  datatype Frame = Frame(isLeft: bool, at: nat, red: bool, sib: Tree)
  datatype Path = Top | Under(frame: Frame, up: Path)

  function Addr(t: Tree): nat {
    if t.Leaf? then NULL else t.at
  }

  function Above(p: Path): nat {
    if p.Top? then NULL else p.frame.at
  }

  function Join(f: Frame, t: Tree): (r: Tree)
    ensures r.Node?
  {
    if f.isLeft then Node(t, f.at, f.red, f.sib) else Node(f.sib, f.at, f.red, t)
  }

  /** The whole tree around a subtree. */
  function Plug(p: Path, t: Tree): Tree
    decreases p
  {
    if p.Top? then t else Plug(p.up, Join(p.frame, t))
  }

  function Depth(p: Path): nat {
    if p.Top? then 0 else 1 + Depth(p.up)
  }

  function InOrder(t: Tree): seq<nat> {
    if t.Leaf? then [] else InOrder(t.left) + [t.at] + InOrder(t.right)
  }

  // ------------------------------------------------------ trees in the memory

  function Nodes(t: Tree): set<nat> {
    if t.Leaf? then {} else Nodes(t.left) + {t.at} + Nodes(t.right)
  }

  function UpNodes(p: Path): set<nat> {
    if p.Top? then {} else {p.frame.at} + Nodes(p.frame.sib) + UpNodes(p.up)
  }

  /** No address occurs twice, and none is null. */
  ghost predicate Apart(t: Tree) {
    t.Node? ==>
      && t.at != NULL && t.at !in Nodes(t.left) && t.at !in Nodes(t.right) && Nodes(t.left) !! Nodes(t.right)
      && Apart(t.left) && Apart(t.right)
  }

  ghost predicate ApartUp(p: Path) {
    p.Under? ==>
      && p.frame.at != NULL && p.frame.at !in Nodes(p.frame.sib) && Apart(p.frame.sib)
      && p.frame.at !in UpNodes(p.up) && Nodes(p.frame.sib) !! UpNodes(p.up) && ApartUp(p.up)
  }

  /** The memory holds the tree, hanging under `parent`. */
  ghost predicate Rep(h: Memory, t: Tree, parent: nat) {
    t.Node? ==>
      && t.at in h && h[t.at] == RbNode(t.red, parent, Addr(t.left), Addr(t.right))
      && Rep(h, t.left, t.at) && Rep(h, t.right, t.at)
  }

  function FrameNode(f: Frame, parent: nat, child: nat): RbNode {
    RbNode(f.red, parent, if f.isLeft then child else Addr(f.sib), if f.isLeft then Addr(f.sib) else child)
  }

  ghost predicate RepUp(h: Memory, p: Path, child: nat, root: nat) {
    match p
    case Top => root == child
    case Under(f, up) =>
      && f.at in h && h[f.at] == FrameNode(f, Above(up), child)
      && Rep(h, f.sib, f.at) && RepUp(h, up, f.at, root)
  }

  ghost predicate Distinct(p: Path, t: Tree) {
    Apart(t) && ApartUp(p) && Nodes(t) !! UpNodes(p)
  }

  /** The memory holds the whole tree, seen from a subtree in it. */
  ghost predicate Holds(h: Memory, root: nat, p: Path, t: Tree) {
    Distinct(p, t) && Rep(h, t, Above(p)) && RepUp(h, p, Addr(t), root)
  }

  /** The view can move between a subtree and its parent. */
  lemma Move(h: Memory, root: nat, f: Frame, up: Path, t: Tree)
    ensures Holds(h, root, Under(f, up), t) <==> Holds(h, root, up, Join(f, t))
  {
    hide Rep, RepUp, Apart, ApartUp;
    MoveDistinct(f, up, t);
    MoveRep(h, root, f, up, t);
  }

  lemma MoveDistinct(f: Frame, up: Path, t: Tree)
    ensures Distinct(Under(f, up), t) <==> Distinct(up, Join(f, t))
  {
  }

  lemma MoveRep(h: Memory, root: nat, f: Frame, up: Path, t: Tree)
    ensures Rep(h, t, f.at) && RepUp(h, Under(f, up), Addr(t), root)
       <==> Rep(h, Join(f, t), Above(up)) && RepUp(h, up, f.at, root)
  {
  }

  /** Two memories hold the same at the given addresses. */
  ghost predicate Agree(h: Memory, h2: Memory, s: set<nat>) {
    forall m | m in s :: m in h && m in h2 && h2[m] == h[m]
  }

  lemma {:induction false} RepIn(h: Memory, t: Tree, parent: nat)
    requires Rep(h, t, parent)
    ensures Nodes(t) <= h.Keys
    decreases t
  {
    if t.Node? {
      RepIn(h, t.left, t.at);
      RepIn(h, t.right, t.at);
    }
  }

  lemma {:induction false} RepStays(h: Memory, h2: Memory, t: Tree, parent: nat)
    requires Rep(h, t, parent) && Agree(h, h2, Nodes(t))
    ensures Rep(h2, t, parent)
    decreases t
  {
    if t.Node? {
      RepStays(h, h2, t.left, t.at);
      RepStays(h, h2, t.right, t.at);
    }
  }

  lemma {:induction false} UpStays(h: Memory, h2: Memory, p: Path, child: nat, root: nat)
    requires RepUp(h, p, child, root) && Agree(h, h2, UpNodes(p))
    ensures RepUp(h2, p, child, root)
    decreases p
  {
    if p.Under? {
      RepStays(h, h2, p.frame.sib, p.frame.at);
      UpStays(h, h2, p.up, p.frame.at, root);
    }
  }

  /** At most these four nodes differ. */
  ghost predicate Only(h: Memory, h2: Memory, x: nat, y: nat, b: nat, parent: nat) {
    forall m | m in h && m != x && m != y && m != b && m != parent :: m in h2 && h2[m] == h[m]
  }

  lemma OnlyAgree(h: Memory, h2: Memory, x: nat, y: nat, b: nat, parent: nat, s: set<nat>, less: set<nat>)
    requires Only(h, h2, x, y, b, parent) && s <= h.Keys && less <= s - {x, y, b, parent}
    ensures Agree(h, h2, less)
  {
  }

  /** Hanging a subtree under another parent. */
  lemma RepMoved(h: Memory, h2: Memory, t: Tree, parent: nat, parent2: nat)
    requires Rep(h, t, parent) && Apart(t) && Agree(h, h2, Nodes(t) - {Addr(t)})
    requires t.Node? ==> t.at in h2 && h2[t.at] == h[t.at].(parent := parent2)
    ensures Rep(h2, t, parent2)
  {
    if t.Node? {
      RepStays(h, h2, t.left, t.at);
      RepStays(h, h2, t.right, t.at);
    }
  }

  /** What a parent, or the root pointer, becomes when another child takes a place. */
  ghost predicate Rehung(h: Memory, h2: Memory, p: Path, root2: nat, child2: nat) {
    if p.Top? then root2 == child2
    else p.frame.at in h && p.frame.at in h2
         && h2[p.frame.at] == (if p.frame.isLeft then h[p.frame.at].(left := child2) else h[p.frame.at].(right := child2))
  }

  lemma UpMoved(h: Memory, h2: Memory, p: Path, child: nat, child2: nat, root: nat, root2: nat)
    requires RepUp(h, p, child, root) && ApartUp(p) && Agree(h, h2, UpNodes(p) - {Above(p)})
    requires Rehung(h, h2, p, root2, child2) && (p.Under? ==> root2 == root)
    ensures RepUp(h2, p, child2, root2)
  {
    if p.Under? {
      RepStays(h, h2, p.frame.sib, p.frame.at);
      UpStays(h, h2, p.up, p.frame.at, root);
    }
  }

  // -------------------------------------------------------------- rotations

  function RotatedLeft(t: Tree): Tree
    requires t.Node? && t.right.Node?
  {
    Node(Node(t.left, t.at, t.red, t.right.left), t.right.at, t.right.red, t.right.right)
  }

  function RotatedRight(t: Tree): Tree
    requires t.Node? && t.left.Node?
  {
    Node(t.left.left, t.left.at, t.left.red, Node(t.left.right, t.at, t.red, t.right))
  }

  /** The memory after a rotation to the left of `t` under `parent`. */
  ghost predicate TurnedLeft(h: Memory, h2: Memory, p: Path, t: Tree, root2: nat)
    requires t.Node? && t.right.Node?
  {
    var x, y, b := t.at, t.right.at, t.right.left;
    && x in h2 && h2[x] == RbNode(t.red, y, Addr(t.left), Addr(b))
    && y in h2 && h2[y] == RbNode(t.right.red, Above(p), x, Addr(t.right.right))
    && (b.Node? ==> b.at in h && b.at in h2 && h2[b.at] == h[b.at].(parent := x))
    && Rehung(h, h2, p, root2, y)
    && Only(h, h2, x, y, Addr(b), Above(p))
  }

  lemma LeftParts(h: Memory, root: nat, p: Path, t: Tree)
    requires t.Node? && t.right.Node? && Holds(h, root, p, t)
    ensures Rep(h, t.left, t.at) && Rep(h, t.right.left, t.right.at) && Rep(h, t.right.right, t.right.at)
    ensures RepUp(h, p, t.at, root) && ApartUp(p) && Apart(t.right.left)
  {
    assert Rep(h, t.right, t.at) && Apart(t.right);
    hide RepUp, ApartUp;
  }

  lemma LeftApart(t: Tree)
    requires t.Node? && t.right.Node? && Apart(t)
    ensures var x, y, a, b, c := t.at, t.right.at, Nodes(t.left), Nodes(t.right.left), Nodes(t.right.right);
      && x != y && x !in a + b + c && y !in a + b + c && a !! b && a !! c && b !! c
      && Nodes(t) == a + b + c + {x, y} == Nodes(RotatedLeft(t)) && Apart(RotatedLeft(t))
      && NULL !in Nodes(t)
  {
    NullOutside(t);
    assert Apart(t.right) && Nodes(t.right) == Nodes(t.right.left) + {t.right.at} + Nodes(t.right.right);
  }

  /** Which nodes a rotation to the left does not touch. */
  lemma LeftSets(p: Path, t: Tree)
    requires t.Node? && t.right.Node? && Distinct(p, t)
    ensures var b := t.right.left; var s := {t.at, t.right.at, Addr(b), Above(p)}; var all := Nodes(t) + UpNodes(p);
      && Nodes(t.left) <= all - s && Nodes(t.right.right) <= all - s
      && Nodes(b) - {Addr(b)} <= all - s && UpNodes(p) - {Above(p)} <= all - s
    ensures Distinct(p, RotatedLeft(t))
  {
    AboveOutside(p, t);
    RootInside(t.right.left);
    LeftApart(t);
    hide Nodes, UpNodes, Apart, ApartUp;
  }

  lemma RootInside(t: Tree)
    ensures t.Node? ==> Addr(t) in Nodes(t)
    ensures t.Leaf? ==> Addr(t) == NULL
  {
  }

  lemma AllIn(h: Memory, root: nat, p: Path, t: Tree)
    requires Holds(h, root, p, t)
    ensures Nodes(t) + UpNodes(p) <= h.Keys
  {
    RepIn(h, t, Above(p));
    UpIn(h, p, Addr(t), root);
  }

  lemma TurnLeft(h: Memory, root: nat, h2: Memory, root2: nat, p: Path, t: Tree)
    requires t.Node? && t.right.Node? && Holds(h, root, p, t) && TurnedLeft(h, h2, p, t, root2)
    requires p.Under? ==> root2 == root
    ensures Holds(h2, root2, p, RotatedLeft(t))
  {
    var x, y, b := t.at, t.right.at, t.right.left;
    var all := Nodes(t) + UpNodes(p);
    LeftParts(h, root, p, t);
    AllIn(h, root, p, t);
    LeftSets(p, t);
    OnlyAgree(h, h2, x, y, Addr(b), Above(p), all, Nodes(t.left));
    OnlyAgree(h, h2, x, y, Addr(b), Above(p), all, Nodes(t.right.right));
    OnlyAgree(h, h2, x, y, Addr(b), Above(p), all, Nodes(b) - {Addr(b)});
    OnlyAgree(h, h2, x, y, Addr(b), Above(p), all, UpNodes(p) - {Above(p)});
    hide Nodes, UpNodes, Apart, ApartUp, Agree, RepUp, Distinct;
    RepStays(h, h2, t.left, x);
    RepStays(h, h2, t.right.right, y);
    RepMoved(h, h2, b, y, x);
    UpMoved(h, h2, p, x, y, root, root2);
    assert Rep(h2, RotatedLeft(t).left, y);
  }

  lemma AboveOutside(p: Path, t: Tree)
    requires Distinct(p, t)
    ensures Above(p) !in Nodes(t) && NULL !in Nodes(t) && NULL !in UpNodes(p)
  {
    NullOutside(t);
    NullNotUp(p);
  }

  lemma {:induction false} NullOutside(t: Tree)
    requires Apart(t)
    ensures NULL !in Nodes(t)
    decreases t
  {
    if t.Node? {
      NullOutside(t.left);
      NullOutside(t.right);
    }
  }

  lemma {:induction false} NullNotUp(p: Path)
    requires ApartUp(p)
    ensures NULL !in UpNodes(p)
    decreases p
  {
    if p.Under? {
      NullOutside(p.frame.sib);
      NullNotUp(p.up);
    }
  }

  // The same to the right.

  ghost predicate TurnedRight(h: Memory, h2: Memory, p: Path, t: Tree, root2: nat)
    requires t.Node? && t.left.Node?
  {
    var x, y, b := t.at, t.left.at, t.left.right;
    && x in h2 && h2[x] == RbNode(t.red, y, Addr(b), Addr(t.right))
    && y in h2 && h2[y] == RbNode(t.left.red, Above(p), Addr(t.left.left), x)
    && (b.Node? ==> b.at in h && b.at in h2 && h2[b.at] == h[b.at].(parent := x))
    && Rehung(h, h2, p, root2, y)
    && Only(h, h2, x, y, Addr(b), Above(p))
  }

  lemma RightParts(h: Memory, root: nat, p: Path, t: Tree)
    requires t.Node? && t.left.Node? && Holds(h, root, p, t)
    ensures Rep(h, t.right, t.at) && Rep(h, t.left.left, t.left.at) && Rep(h, t.left.right, t.left.at)
    ensures RepUp(h, p, t.at, root) && ApartUp(p) && Apart(t.left.right)
  {
    assert Rep(h, t.left, t.at) && Apart(t.left);
    hide RepUp, ApartUp;
  }

  lemma RightApart(t: Tree)
    requires t.Node? && t.left.Node? && Apart(t)
    ensures var x, y, a, b, c := t.at, t.left.at, Nodes(t.left.left), Nodes(t.left.right), Nodes(t.right);
      && x != y && x !in a + b + c && y !in a + b + c && a !! b && a !! c && b !! c
      && Nodes(t) == a + b + c + {x, y} == Nodes(RotatedRight(t)) && Apart(RotatedRight(t))
      && NULL !in Nodes(t)
  {
    NullOutside(t);
    assert Apart(t.left) && Nodes(t.left) == Nodes(t.left.left) + {t.left.at} + Nodes(t.left.right);
  }

  lemma RightSets(p: Path, t: Tree)
    requires t.Node? && t.left.Node? && Distinct(p, t)
    ensures var b := t.left.right; var s := {t.at, t.left.at, Addr(b), Above(p)}; var all := Nodes(t) + UpNodes(p);
      && Nodes(t.right) <= all - s && Nodes(t.left.left) <= all - s
      && Nodes(b) - {Addr(b)} <= all - s && UpNodes(p) - {Above(p)} <= all - s
    ensures Distinct(p, RotatedRight(t))
  {
    AboveOutside(p, t);
    RootInside(t.left.right);
    RightApart(t);
    hide Nodes, UpNodes, Apart, ApartUp;
  }

  lemma TurnRight(h: Memory, root: nat, h2: Memory, root2: nat, p: Path, t: Tree)
    requires t.Node? && t.left.Node? && Holds(h, root, p, t) && TurnedRight(h, h2, p, t, root2)
    requires p.Under? ==> root2 == root
    ensures Holds(h2, root2, p, RotatedRight(t))
  {
    var x, y, b := t.at, t.left.at, t.left.right;
    var all := Nodes(t) + UpNodes(p);
    RightParts(h, root, p, t);
    AllIn(h, root, p, t);
    RightSets(p, t);
    OnlyAgree(h, h2, x, y, Addr(b), Above(p), all, Nodes(t.right));
    OnlyAgree(h, h2, x, y, Addr(b), Above(p), all, Nodes(t.left.left));
    OnlyAgree(h, h2, x, y, Addr(b), Above(p), all, Nodes(b) - {Addr(b)});
    OnlyAgree(h, h2, x, y, Addr(b), Above(p), all, UpNodes(p) - {Above(p)});
    hide Nodes, UpNodes, Apart, ApartUp, Agree, RepUp, Distinct;
    RepStays(h, h2, t.right, x);
    RepStays(h, h2, t.left.left, y);
    RepMoved(h, h2, b, y, x);
    UpMoved(h, h2, p, x, y, root, root2);
    assert Rep(h2, RotatedRight(t).right, y);
  }

  // ------------------------------------------------------------------ colours

  lemma Recolor(h: Memory, root: nat, p: Path, t: Tree, red: bool)
    requires t.Node? && Holds(h, root, p, t)
    ensures t.at in h && Holds(h[t.at := h[t.at].(red := red)], root, p, t.(red := red))
  {
    var h2 := h[t.at := h[t.at].(red := red)];
    AboveOutside(p, t);
    RepIn(h, t, Above(p));
    UpIn(h, p, t.at, root);
    hide RepUp, ApartUp;
    RepStays(h, h2, t.left, t.at);
    RepStays(h, h2, t.right, t.at);
    UpStays(h, h2, p, t.at, root);
  }

  lemma {:induction false} UpIn(h: Memory, p: Path, child: nat, root: nat)
    requires RepUp(h, p, child, root)
    ensures UpNodes(p) <= h.Keys
    decreases p
  {
    if p.Under? {
      RepIn(h, p.frame.sib, p.frame.at);
      UpIn(h, p.up, p.frame.at, root);
    }
  }

  /** The links a view gives: of the subtree's root and of its parent. */
  lemma Links(h: Memory, root: nat, p: Path, t: Tree)
    requires Holds(h, root, p, t)
    ensures t.Node? ==> t.at in h && h[t.at] == RbNode(t.red, Above(p), Addr(t.left), Addr(t.right)) && t.at != NULL
    ensures p.Under? ==> Above(p) in h && h[Above(p)] == FrameNode(p.frame, Above(p.up), Addr(t)) && Above(p) != NULL
    ensures p.Top? ==> root == Addr(t)
    ensures p.Under? && p.up.Top? ==> root == p.frame.at
    ensures p.Under? && p.up.Under? ==> Above(p.up) in h && h[Above(p.up)] == FrameNode(p.up.frame, Above(p.up.up), Above(p))
                                        && Above(p.up) != NULL
    ensures p.Under? ==> Addr(t) != Addr(p.frame.sib) || (t.Leaf? && p.frame.sib.Leaf?)
    ensures p.Under? && p.up.Under? ==> p.frame.at != Addr(p.up.frame.sib)
    ensures p.Under? ==> root != NULL && root != Addr(t)
  {
    AboveOutside(p, t);
    if p.Under? {
      RootInside(p.frame.sib);
      RootInside(t);
      RootIsUp(h, p, Addr(t), root);
      assert RepUp(h, p.up, p.frame.at, root);
      if p.up.Under? {
        AboveOutside(p.up, Join(p.frame, t));
        RootInside(p.up.frame.sib);
      }
    }
  }

  lemma {:induction false} RootIsUp(h: Memory, p: Path, child: nat, root: nat)
    requires p.Under? && RepUp(h, p, child, root) && ApartUp(p)
    ensures root in UpNodes(p)
    decreases p
  {
    if p.up.Under? {
      RootIsUp(h, p.up, p.frame.at, root);
    }
  }

  class RbRoot {
    var node: Memory
    var root: nat

    constructor ()
      ensures Holds(node, root, Top, Leaf)
    {
      node, root := map[], NULL;
    }

    method SetColor(at: nat, red: bool, ghost p: Path, ghost t: Tree)
      requires t.Node? && t.at == at && Holds(node, root, p, t)
      modifies this`node
      ensures Holds(node, root, p, t.(red := red))
    {
      Recolor(node, root, p, t, red);
      node := node[at := node[at].(red := red)];
    }

    /** rb_set_parent, for a child that may be missing. */
    method SetParent(child: nat, parent: nat)
      requires child != NULL ==> child in node
      modifies this`node
      ensures node == Hung(old(node), child, parent)
    {
      if child != NULL {
        node := node[child := node[child].(parent := parent)];
      }
    }

    /** Another child takes the place of `at` under its parent. */
    method Replace(at: nat, other: nat, parent: nat)
      requires parent != NULL ==> parent in node
      modifies this
      ensures node == Replaced(old(node), at, other, parent)
      ensures root == (if parent == NULL then other else old(root))
    {
      if parent != NULL {
        if at == node[parent].left {
          node := node[parent := node[parent].(left := other)];
        } else {
          node := node[parent := node[parent].(right := other)];
        }
      } else {
        root := other;
      }
    }

    method RotateLeft(at: nat, ghost p: Path, ghost t: Tree)
      requires t.Node? && t.right.Node? && t.at == at && Holds(node, root, p, t)
      modifies this
      ensures Holds(node, root, p, RotatedLeft(t))
    {
      ghost var h, r := node, root;
      LeftLinks(h, r, p, t);
      LeftMemory(h, p, t);
      hide Holds, Nodes, UpNodes, RotatedLeft, TurnedLeft, Hung, Replaced;
      var right, parent := node[at].right, node[at].parent;
      node := node[at := node[at].(right := node[right].left)];
      SetParent(node[right].left, at);
      node := node[right := node[right].(left := at)];
      node := node[right := node[right].(parent := parent)];
      Replace(at, right, parent);
      node := node[at := node[at].(parent := right)];
      assert node == LeftMem(h, at, right, Addr(t.right.left), parent);
      hide LeftMem;
      TurnLeft(h, r, node, root, p, t);
    }

    method RotateRight(at: nat, ghost p: Path, ghost t: Tree)
      requires t.Node? && t.left.Node? && t.at == at && Holds(node, root, p, t)
      modifies this
      ensures Holds(node, root, p, RotatedRight(t))
    {
      ghost var h, r := node, root;
      RightLinks(h, r, p, t);
      RightMemory(h, p, t);
      hide Holds, Nodes, UpNodes, RotatedRight, TurnedRight, Hung, Replaced;
      var left, parent := node[at].left, node[at].parent;
      node := node[at := node[at].(left := node[left].right)];
      SetParent(node[left].right, at);
      node := node[left := node[left].(right := at)];
      node := node[left := node[left].(parent := parent)];
      Replace(at, left, parent);
      node := node[at := node[at].(parent := left)];
      assert node == RightMem(h, at, left, Addr(t.left.right), parent);
      hide RightMem;
      TurnRight(h, r, node, root, p, t);
    }
  }

  function Hung(h: Memory, child: nat, parent: nat): Memory
    requires child != NULL ==> child in h
  {
    if child == NULL then h else h[child := h[child].(parent := parent)]
  }

  function Replaced(h: Memory, at: nat, other: nat, parent: nat): Memory
    requires parent != NULL ==> parent in h
  {
    if parent == NULL then h
    else if at == h[parent].left then h[parent := h[parent].(left := other)]
    else h[parent := h[parent].(right := other)]
  }

  /** The memory a rotation of `x` to the left leaves, step by step. */
  function LeftMem(h: Memory, x: nat, y: nat, b: nat, parent: nat): Memory
    requires x in h && y in h && (b != NULL ==> b in h) && (parent != NULL ==> parent in h)
  {
    var h1 := h[x := h[x].(right := b)];
    var h2 := Hung(h1, b, x);
    var h3 := h2[y := h2[y].(left := x)];
    var h4 := h3[y := h3[y].(parent := parent)];
    var h5 := Replaced(h4, x, y, parent);
    h5[x := h5[x].(parent := y)]
  }

  function RightMem(h: Memory, x: nat, y: nat, b: nat, parent: nat): Memory
    requires x in h && y in h && (b != NULL ==> b in h) && (parent != NULL ==> parent in h)
  {
    var h1 := h[x := h[x].(left := b)];
    var h2 := Hung(h1, b, x);
    var h3 := h2[y := h2[y].(right := x)];
    var h4 := h3[y := h3[y].(parent := parent)];
    var h5 := Replaced(h4, x, y, parent);
    h5[x := h5[x].(parent := y)]
  }

  /** What a rotation to the left reads, and that it is all different. */
  ghost predicate LeftReady(h: Memory, p: Path, t: Tree) {
    && t.Node? && t.right.Node?
    && t.at in h && h[t.at] == RbNode(t.red, Above(p), Addr(t.left), t.right.at) && t.at != NULL
    && t.right.at in h && h[t.right.at] == RbNode(t.right.red, t.at, Addr(t.right.left), Addr(t.right.right))
    && t.right.at != NULL && t.right.at != t.at && t.at != Above(p) && Above(p) != t.right.at
    && (t.right.left.Node? ==> Apart3(h, t.right.left.at, t.at, t.right.at, Above(p)))
    && UpReady(h, p, t.at)
  }

  ghost predicate RightReady(h: Memory, p: Path, t: Tree) {
    && t.Node? && t.left.Node?
    && t.at in h && h[t.at] == RbNode(t.red, Above(p), t.left.at, Addr(t.right)) && t.at != NULL
    && t.left.at in h && h[t.left.at] == RbNode(t.left.red, t.at, Addr(t.left.left), Addr(t.left.right))
    && t.left.at != NULL && t.left.at != t.at && t.at != Above(p) && Above(p) != t.left.at
    && (t.left.right.Node? ==> Apart3(h, t.left.right.at, t.at, t.left.at, Above(p)))
    && UpReady(h, p, t.at)
  }

  ghost predicate Apart3(h: Memory, b: nat, x: nat, y: nat, parent: nat) {
    b in h && b != NULL && b != x && b != y && b != parent
  }

  ghost predicate UpReady(h: Memory, p: Path, child: nat) {
    p.Under? ==> Above(p) in h && h[Above(p)] == FrameNode(p.frame, Above(p.up), child) && Above(p) != NULL
                 && child != Addr(p.frame.sib)
  }

  lemma LeftMemory(h: Memory, p: Path, t: Tree)
    requires LeftReady(h, p, t)
    ensures (Addr(t.right.left) != NULL ==> Addr(t.right.left) in h) && (Above(p) != NULL ==> Above(p) in h)
    ensures var h2 := LeftMem(h, t.at, t.right.at, Addr(t.right.left), Above(p));
      forall root2 | p.Top? ==> root2 == t.right.at :: TurnedLeft(h, h2, p, t, root2)
  {
  }

  lemma RightMemory(h: Memory, p: Path, t: Tree)
    requires RightReady(h, p, t)
    ensures (Addr(t.left.right) != NULL ==> Addr(t.left.right) in h) && (Above(p) != NULL ==> Above(p) in h)
    ensures var h2 := RightMem(h, t.at, t.left.at, Addr(t.left.right), Above(p));
      forall root2 | p.Top? ==> root2 == t.left.at :: TurnedRight(h, h2, p, t, root2)
  {
  }

  lemma LeftLinks(h: Memory, root: nat, p: Path, t: Tree)
    requires t.Node? && t.right.Node? && Holds(h, root, p, t)
    ensures LeftReady(h, p, t)
  {
    AllIn(h, root, p, t);
    LeftSets(p, t);
    LeftApart(t);
    AboveOutside(p, t);
    Links(h, root, p, t);
    LeftParts(h, root, p, t);
    RootInside(t.right.left);
    assert Rep(h, t.right, t.at);
    hide Nodes, UpNodes, Apart, ApartUp, RepUp;
  }

  lemma RightLinks(h: Memory, root: nat, p: Path, t: Tree)
    requires t.Node? && t.left.Node? && Holds(h, root, p, t)
    ensures RightReady(h, p, t)
  {
    AllIn(h, root, p, t);
    RightSets(p, t);
    RightApart(t);
    AboveOutside(p, t);
    Links(h, root, p, t);
    RightParts(h, root, p, t);
    RootInside(t.left.right);
    assert Rep(h, t.left, t.at);
    hide Nodes, UpNodes, Apart, ApartUp, RepUp;
  }
}
