/** rb_erase of tool/lib/rbtree.c: a node is unlinked, or its successor takes its
    place, and the colours are repaired. */
module RbRemove {
  import opened RbTree
  import opened RbInsert
  import opened RbErase

  /** What comes before and behind a subtree in the order of the nodes. */
  function Before(p: Path): seq<nat> {
    if p.Top? then [] else Before(p.up) + if p.frame.isLeft then [] else InOrder(p.frame.sib) + [p.frame.at]
  }

  function Behind(p: Path): seq<nat> {
    if p.Top? then [] else (if p.frame.isLeft then [p.frame.at] + InOrder(p.frame.sib) else []) + Behind(p.up)
  }

  lemma {:induction false} PlugSplit(p: Path, t: Tree)
    ensures InOrder(Plug(p, t)) == Before(p) + InOrder(t) + Behind(p)
    decreases p
  {
    if p.Under? {
      PlugSplit(p.up, Join(p.frame, t));
      LeftGroup(Before(p.up), InOrder(t), p.frame.at, InOrder(p.frame.sib), Behind(p.up));
    }
  }

  lemma LeftGroup(b: seq<nat>, i: seq<nat>, x: nat, s: seq<nat>, e: seq<nat>)
    ensures b + (i + [x] + s) + e == (b + []) + i + (([x] + s) + e)
    ensures b + (s + [x] + i) + e == (b + (s + [x])) + i + ([] + e)
  {
  }

  /** What the rules say of a subtree and of what is around it. */
  lemma {:induction false} Unplug(p: Path, t: Tree) returns (n: int)
    requires RedBlack(Plug(p, t))
    ensures UpOk(p, n) && Height(t, n) && Colored(t) && (IsRed(t) ==> p.Under? && !p.frame.red)
    decreases p
  {
    if p.Top? {
      n :| Height(t, n);
    } else {
      n := Unplug(p.up, Join(p.frame, t));
      n := n - Weight(p.frame.red);
    }
  }

  // ------------------------------------------------ a node with one child or none

  function OnlyChild(t: Tree): Tree
    requires t.Node?
  {
    if t.left.Leaf? then t.right else t.left
  }

  lemma Unlinked(h: Memory, root: nat, h2: Memory, root2: nat, p: Path, t: Tree)
    requires Holds(h, root, p, t) && t.Node? && (t.left.Leaf? || t.right.Leaf?)
    requires var c := Addr(OnlyChild(t));
      && (c != NULL ==> c in h) && (Above(p) != NULL ==> Above(p) in h)
      && h2 == Replaced(Hung(h, c, Above(p)), t.at, c, Above(p))
      && root2 == (if Above(p) == NULL then c else root)
    ensures Holds(h2, root2, p, OnlyChild(t))
  {
    var c := OnlyChild(t);
    AllIn(h, root, p, t);
    Links(h, root, p, t);
    AboveOutside(p, t);
    RootInside(c);
    UnlinkedSets(p, t);
    assert Rep(h, c, t.at) && Apart(c);
    hide Nodes, UpNodes, Apart, ApartUp;
    RepMoved(h, h2, c, t.at, Above(p));
    UpMoved(h, h2, p, t.at, Addr(c), root, root2);
  }

  lemma UnlinkedSets(p: Path, t: Tree)
    requires Distinct(p, t) && t.Node?
    ensures var c := OnlyChild(t);
      && Distinct(p, c) && Nodes(c) <= Nodes(t) && t.at !in Nodes(c) && Nodes(c) !! UpNodes(p)
      && (p.Under? ==> Above(p) in UpNodes(p))
  {
  }

  // --------------------------------------------------- a node with two children

  /** Another node takes the place of the root of the subtree in view. */
  lemma Renamed(h: Memory, root: nat, h2: Memory, root2: nat, p: Path, t: Tree, s: nat)
    requires Holds(h, root, p, t) && t.Node? && s != NULL && s !in Nodes(t) + UpNodes(p)
    requires s in h2 && h2[s] == RbNode(t.red, Above(p), Addr(t.left), Addr(t.right))
    requires forall c | c == t.left || c == t.right :: c.Node? ==> c.at in h && c.at in h2 && h2[c.at] == h[c.at].(parent := s)
    requires Rehung(h, h2, p, root2, s) && (p.Under? ==> root2 == root)
    requires Agree(h, h2, Nodes(t) + UpNodes(p) - {t.at, Addr(t.left), Addr(t.right), Above(p)})
    ensures Holds(h2, root2, p, t.(at := s))
  {
    var most := Nodes(t) + UpNodes(p) - {t.at, Addr(t.left), Addr(t.right), Above(p)};
    AboveOutside(p, t);
    RootInside(t.left);
    RootInside(t.right);
    RenamedSets(p, t, s);
    assert Rep(h, t.left, t.at) && Rep(h, t.right, t.at) && Apart(t.left) && Apart(t.right) && ApartUp(p);
    assert Nodes(t.left) - {Addr(t.left)} <= most && Nodes(t.right) - {Addr(t.right)} <= most && UpNodes(p) - {Above(p)} <= most;
    hide Nodes, UpNodes, Apart, ApartUp;
    RepMoved(h, h2, t.left, t.at, s);
    RepMoved(h, h2, t.right, t.at, s);
    UpMoved(h, h2, p, t.at, s, root, root2);
  }

  lemma RenamedSets(p: Path, t: Tree, s: nat)
    requires Distinct(p, t) && t.Node? && s != NULL && s !in Nodes(t) + UpNodes(p)
    ensures Distinct(p, t.(at := s))
    ensures t.at !in Nodes(t.left) + Nodes(t.right) + UpNodes(p) && Nodes(t.left) !! Nodes(t.right)
    ensures Nodes(t.left) <= Nodes(t) && Nodes(t.right) <= Nodes(t) && Nodes(t) !! UpNodes(p)
  {
  }

  /** `q` goes down `k` times to the left from `base`. */
  ghost predicate Spine(q: Path, k: nat, base: Path) {
    if k == 0 then q == base else q.Under? && q.frame.isLeft && Spine(q.up, k - 1, base)
  }

  /** The same way down from another base. */
  function Rebased(q: Path, k: nat, base: Path): Path {
    if k == 0 || q.Top? then base else Under(q.frame, Rebased(q.up, k - 1, base))
  }

  /** The tree below the base, seen from a subtree on the way. */
  function Down(q: Path, k: nat, t: Tree): Tree {
    if k == 0 || q.Top? then t else Down(q.up, k - 1, Join(q.frame, t))
  }

  lemma {:induction false} SpineMove(h: Memory, root: nat, q: Path, k: nat, base: Path, t: Tree)
    requires Spine(q, k, base)
    ensures Holds(h, root, q, t) <==> Holds(h, root, base, Down(q, k, t))
    decreases k
  {
    hide Holds;
    if k > 0 {
      Move(h, root, q.frame, q.up, t);
      SpineMove(h, root, q.up, k - 1, base, Join(q.frame, t));
    }
  }

  lemma {:induction false} RebasedSpine(q: Path, k: nat, base: Path, base2: Path, t: Tree)
    requires Spine(q, k, base)
    ensures Spine(Rebased(q, k, base2), k, base2) && Down(Rebased(q, k, base2), k, t) == Down(q, k, t)
    ensures k > 0 ==> Above(Rebased(q, k, base2)) == Above(q)
    decreases k
  {
    if k > 0 {
      RebasedSpine(q.up, k - 1, base, base2, Join(q.frame, t));
    }
  }

  /** What hangs between the base and the subtree, in order. */
  function Between(q: Path, k: nat): seq<nat> {
    if k == 0 || q.Top? then [] else [q.frame.at] + InOrder(q.frame.sib) + Between(q.up, k - 1)
  }

  lemma {:induction false} DownOrder(q: Path, k: nat, base: Path, t: Tree)
    requires Spine(q, k, base)
    ensures InOrder(Down(q, k, t)) == InOrder(t) + Between(q, k)
    decreases k
  {
    if k > 0 {
      DownOrder(q.up, k - 1, base, Join(q.frame, t));
    }
  }

  /** The rules do not care for the address in the frame at the base. */
  lemma {:induction false} RebasedOk(q: Path, k: nat, base: Path, f: Frame, n: int)
    requires Spine(q, k, base) && base.Under? && f == base.frame.(at := f.at)
    ensures UpOk(Rebased(q, k, Under(f, base.up)), n) == UpOk(q, n)
    ensures Rebased(q, k, Under(f, base.up)).Under? && q.Under? && Rebased(q, k, Under(f, base.up)).frame.red == q.frame.red
    decreases k
  {
    if k > 0 {
      RebasedOk(q.up, k - 1, base, f, n + Weight(q.frame.red));
      var a, b := Rebased(q, k, Under(f, base.up)), q;
      assert a.frame == b.frame && (a.up.Under? <==> b.up.Under?);
    }
  }

  lemma {:induction false} DownNodes(q: Path, k: nat, base: Path, t: Tree)
    requires Spine(q, k, base)
    ensures Nodes(Down(q, k, t)) + UpNodes(base) == Nodes(t) + UpNodes(q)
    ensures k > 0 ==> Down(q, k, t).Node? && Addr(Down(q, k, t)) in UpNodes(q) && Above(q) in UpNodes(q)
    decreases k
  {
    if k > 0 {
      DownNodes(q.up, k - 1, base, Join(q.frame, t));
    }
  }

  lemma {:induction false} DownSame(q: Path, k: nat, base: Path, t: Tree, t2: Tree)
    requires Spine(q, k, base) && k > 0
    ensures Addr(Down(q, k, t)) == Addr(Down(q, k, t2))
    decreases k
  {
    if k > 1 {
      DownSame(q.up, k - 1, base, Join(q.frame, t), Join(q.frame, t2));
    }
  }

  /** The child takes the successor's place, and the successor gets the right subtree. */
  function Detached(h: Memory, gone: nat, s: nat, c: nat, parent: nat, right: nat): Memory
    requires gone in h && s in h && parent in h && (c != NULL ==> c in h) && (right != NULL ==> right in h)
  {
    var h1 := Hung(h, c, parent);
    var h2 := h1[parent := h1[parent].(left := c)];
    var h3 := h2[s := h2[s].(right := h2[gone].right)];
    Hung(h3, right, s)
  }

  /** The memory after the successor `s` with its child `c` has left its place under
      `parent` and taken the place of `old`. */
  function Swapped(h: Memory, gone: nat, s: nat, c: nat, parent: nat, up: nat, l: nat, right: nat): Memory
    requires gone in h && s in h && parent in h && (c != NULL ==> c in h) && (up != NULL ==> up in h)
    requires (l != NULL ==> l in h) && (right != NULL ==> right in h)
  {
    var h1 := Replaced(h, gone, s, up);
    var h2 := if parent == gone then h1 else Detached(h1, gone, s, c, parent, right);
    var h3 := h2[s := h2[s].(red := h2[gone].red, parent := h2[gone].parent)];
    var h4 := h3[s := h3[s].(left := h3[gone].left)];
    Hung(h4, l, s)
  }

  /** The nodes a swap touches, all different as far as they are there. */
  ghost predicate SwapReady(h: Memory, gone: nat, s: nat, c: nat, parent: nat, up: nat, l: nat, right: nat) {
    && gone in h && s in h && parent in h && (c != NULL ==> c in h) && (up != NULL ==> up in h) && l in h && right in h
    && gone != NULL && s != NULL && l != NULL && right != NULL && parent != NULL
    && gone != s && gone != c && gone != up && gone != l && gone != right
    && s != c && s != up && s != l && s != parent && (parent == gone <==> s == right)
    && c != parent && (c != NULL ==> c != up && c != l && c != right)
    && parent != up && parent != l && up != l && up != right && l != right
    && h[s].right == c && h[s].parent == parent && h[gone].left == l && h[gone].right == right && h[gone].parent == up
    && (c != NULL ==> h[c].parent == s) && (parent != gone ==> h[parent].left == s)
  }

  /** Unlinking the successor first and renaming then leaves the same. */
  ghost predicate SwapGives(a: Memory, h2: Memory, gone: nat, s: nat, up: nat, l: nat, top: nat, node: RbNode) {
    && s in h2 && h2[s] == node
    && l in a && l in h2 && h2[l] == a[l].(parent := s)
    && (top != NULL ==> top in a && top in h2 && h2[top] == a[top].(parent := s))
    && (up != NULL ==> (up in a && up in h2
                        && h2[up] == (if gone == a[up].left then a[up].(left := s) else a[up].(right := s))))
    && (forall m | m in a && m != gone && m != s && m != l && m != top && m != up :: m in h2 && h2[m] == a[m])
  }

  lemma SwapNear(h: Memory, gone: nat, s: nat, c: nat, up: nat, l: nat)
    requires SwapReady(h, gone, s, c, gone, up, l, s)
    ensures var a := Replaced(Hung(h, c, gone), s, c, gone); var h2 := Swapped(h, gone, s, c, gone, up, l, s);
      SwapGives(a, h2, gone, s, up, l, c, RbNode(h[gone].red, up, l, c))
  {
  }

  lemma SwapFar(h: Memory, gone: nat, s: nat, c: nat, parent: nat, up: nat, l: nat, right: nat)
    requires SwapReady(h, gone, s, c, parent, up, l, right) && parent != gone
    ensures var a := Replaced(Hung(h, c, parent), s, c, parent); var h2 := Swapped(h, gone, s, c, parent, up, l, right);
      SwapGives(a, h2, gone, s, up, l, right, RbNode(h[gone].red, up, l, right))
  {
    var a, h2 := Replaced(Hung(h, c, parent), s, c, parent), Swapped(h, gone, s, c, parent, up, l, right);
    forall m | m in a && m != gone && m != s && m != l && m != right && m != up ensures m in h2 && h2[m] == a[m] {
      SwapFarAt(h, gone, s, c, parent, up, l, right, m);
    }
  }

  lemma SwapFarAt(h: Memory, gone: nat, s: nat, c: nat, parent: nat, up: nat, l: nat, right: nat, m: nat)
    requires SwapReady(h, gone, s, c, parent, up, l, right) && parent != gone
    requires m != gone && m != s && m != l && m != right && m != up
    ensures var a := Replaced(Hung(h, c, parent), s, c, parent); var h2 := Swapped(h, gone, s, c, parent, up, l, right);
      m in a ==> m in h2 && h2[m] == a[m]
  {
    if m == c {
    } else if m == parent {
    } else {
    }
  }

  lemma {:induction false} SpineInside(q: Path, k: nat, base: Path, t: Tree)
    requires Spine(q, k, base)
    ensures UpNodes(base) <= UpNodes(q) && Nodes(t) <= Nodes(Down(q, k, t))
    ensures k > 0 ==> q.Under? && q.frame.isLeft && Above(q) in Nodes(Down(q, k, t)) && Down(q, k, t).Node? && Addr(Down(q, k, t)) in UpNodes(q)
    ensures k == 0 ==> q == base
    decreases k
  {
    if k > 0 {
      SpineInside(q.up, k - 1, base, Join(q.frame, t));
    }
  }

  lemma SwapView(h: Memory, root: nat, p: Path, t: Tree, q: Path, k: nat, s: Tree)
    requires Holds(h, root, q, s) && t.Node? && Spine(q, k, Under(Frame(false, t.at, t.red, t.left), p)) && Down(q, k, s) == t.right
    ensures Holds(h, root, p, t)
  {
    hide Holds;
    var f := Frame(false, t.at, t.red, t.left);
    SpineMove(h, root, q, k, Under(f, p), s);
    Move(h, root, f, p, t.right);
  }

  /** Which sets the nodes of a swap are in. */
  lemma SwapSets(p: Path, t: Tree)
    requires Distinct(p, t) && t.Node? && t.left.Node?
    ensures t.at !in Nodes(t.right) && t.left.at !in Nodes(t.right) && t.at != t.left.at && t.left.at != NULL
    ensures Above(p) !in Nodes(t.right) && Above(p) != t.at && Above(p) != t.left.at
    ensures var b := UpNodes(Under(Frame(false, t.at, t.red, t.left), p));
      t.at in b && t.left.at in b && (p.Under? ==> Above(p) in b)
  {
    AboveOutside(p, t);
    RootInside(t.left);
    hide ApartUp;
  }

  lemma SwapOutside(q: Path, s: Tree)
    requires Distinct(q, s) && s.Node?
    ensures s.at !in UpNodes(q) && (s.right.Node? ==> s.right.at !in UpNodes(q) && s.right.at != s.at)
    ensures NULL !in UpNodes(q) && s.at in Nodes(s)
  {
    AboveOutside(q, s);
    RootInside(s.right);
    RootInside(s);
    hide ApartUp;
  }

  /** The two nodes and what is around them, as the view has it. */
  lemma SwapFacts(h: Memory, root: nat, p: Path, t: Tree, q: Path, k: nat, s: Tree)
    requires Holds(h, root, q, s) && s.Node? && s.left.Leaf? && t.Node? && t.left.Node? && t.right.Node?
    requires Spine(q, k, Under(Frame(false, t.at, t.red, t.left), p)) && Down(q, k, s) == t.right
    ensures SwapReady(h, t.at, s.at, Addr(s.right), Above(q), Above(p), t.left.at, t.right.at)
    ensures Above(q) == t.at <==> k == 0
  {
    SwapView(h, root, p, t, q, k, s);
    ViewLinks(h, root, p, t);
    Links(h, root, p, t);
    ViewLinks(h, root, q, s);
    Links(h, root, q, s);
    SwapSets(p, t);
    SwapOutside(q, s);
    SpineInside(q, k, Under(Frame(false, t.at, t.red, t.left), p), s);
    hide Holds, Spine, Down, Nodes, UpNodes;
  }

  function BaseOf(t: Tree, at: nat, p: Path): Path
    requires t.Node?
  {
    Under(Frame(false, at, t.red, t.left), p)
  }

  lemma SwapUnlinked(h: Memory, root: nat, p: Path, t: Tree, q: Path, k: nat, s: Tree) returns (a: Memory)
    requires Holds(h, root, q, s) && s.Node? && s.left.Leaf? && t.Node? && t.left.Node? && t.right.Node?
    requires Spine(q, k, BaseOf(t, t.at, p)) && Down(q, k, s) == t.right
    requires SwapReady(h, t.at, s.at, Addr(s.right), Above(q), Above(p), t.left.at, t.right.at) && (Above(q) == t.at <==> k == 0)
    ensures Holds(a, root, p, t.(right := Down(q, k, s.right)))
    ensures var h2 := Swapped(h, t.at, s.at, Addr(s.right), Above(q), Above(p), t.left.at, t.right.at);
      var r := Addr(Down(q, k, s.right));
      SwapGives(a, h2, t.at, s.at, Above(p), t.left.at, r, RbNode(t.red, Above(p), t.left.at, r))
  {
    var c, f := s.right, Frame(false, t.at, t.red, t.left);
    SwapView(h, root, p, t, q, k, s);
    Links(h, root, p, t);
    a := Replaced(Hung(h, Addr(c), Above(q)), s.at, Addr(c), Above(q));
    Unlinked(h, root, a, root, q, s);
    SpineMove(a, root, q, k, BaseOf(t, t.at, p), c);
    Move(a, root, f, p, Down(q, k, c));
    hide Holds, Swapped, SwapReady, SwapGives;
    if k == 0 {
      SwapNear(h, t.at, s.at, Addr(c), Above(p), t.left.at);
    } else {
      DownSame(q, k, BaseOf(t, t.at, p), c, s);
      SwapFar(h, t.at, s.at, Addr(c), Above(q), Above(p), t.left.at, t.right.at);
    }
  }

  lemma SwapFresh(p: Path, t: Tree, q: Path, k: nat, s: Tree)
    requires Distinct(q, s) && s.Node? && s.left.Leaf? && t.Node? && Spine(q, k, BaseOf(t, t.at, p))
    ensures s.at !in Nodes(t.(right := Down(q, k, s.right))) + UpNodes(p) && s.at != NULL
  {
    SwapOutside(q, s);
    DownNodes(q, k, BaseOf(t, t.at, p), s.right);
    assert s.at !in Nodes(s.right);
    hide ApartUp, Spine, Down;
  }

  lemma SwapRenames(a: Memory, root: nat, h2: Memory, root2: nat, p: Path, t: Tree, s: nat)
    requires Holds(a, root, p, t) && t.Node? && t.left.Node? && s != NULL && s !in Nodes(t) + UpNodes(p)
    requires SwapGives(a, h2, t.at, s, Above(p), t.left.at, Addr(t.right), RbNode(t.red, Above(p), t.left.at, Addr(t.right)))
    requires root2 == if Above(p) == NULL then s else root
    ensures Holds(h2, root2, p, t.(at := s))
  {
    AllIn(a, root, p, t);
    Links(a, root, p, t);
    ViewLinks(a, root, p, t);
    AboveOutside(p, t);
    hide Nodes, UpNodes, Holds;
    Renamed(a, root, h2, root2, p, t, s);
  }

  /** The successor is in the place of the node, its child in its own. */
  lemma SwapHolds(h: Memory, root: nat, root2: nat, p: Path, t: Tree, q: Path, k: nat, s: Tree)
    requires Holds(h, root, q, s) && s.Node? && s.left.Leaf? && t.Node? && t.left.Node? && t.right.Node?
    requires Spine(q, k, BaseOf(t, t.at, p)) && Down(q, k, s) == t.right
    requires SwapReady(h, t.at, s.at, Addr(s.right), Above(q), Above(p), t.left.at, t.right.at) && (Above(q) == t.at <==> k == 0)
    requires root2 == if Above(p) == NULL then s.at else root
    ensures var h2 := Swapped(h, t.at, s.at, Addr(s.right), Above(q), Above(p), t.left.at, t.right.at);
      Holds(h2, root2, Rebased(q, k, BaseOf(t, s.at, p)), s.right)
  {
    var h2 := Swapped(h, t.at, s.at, Addr(s.right), Above(q), Above(p), t.left.at, t.right.at);
    var a := SwapUnlinked(h, root, p, t, q, k, s);
    SwapFresh(p, t, q, k, s);
    var t2 := t.(right := Down(q, k, s.right));
    hide Spine, Down, Rebased, SwapReady, Swapped, Holds, SwapGives;
    SwapRenames(a, root, h2, root2, p, t2, s.at);
    SwapBack(h2, root2, p, t, q, k, s);
  }

  lemma SwapBack(h2: Memory, root2: nat, p: Path, t: Tree, q: Path, k: nat, s: Tree)
    requires t.Node? && s.Node? && Spine(q, k, BaseOf(t, t.at, p))
    requires Holds(h2, root2, p, Node(t.left, s.at, t.red, Down(q, k, s.right)))
    ensures Holds(h2, root2, Rebased(q, k, BaseOf(t, s.at, p)), s.right)
  {
    hide Holds;
    var base2 := BaseOf(t, s.at, p);
    Move(h2, root2, base2.frame, p, Down(q, k, s.right));
    RebasedSpine(q, k, BaseOf(t, t.at, p), base2, s.right);
    SpineMove(h2, root2, Rebased(q, k, base2), k, base2, s.right);
  }

  // ------------------------------------------------------------------ rb_erase

  /** What is left when the subtree's root is gone. */
  function Without(p: Path, t: Tree): seq<nat>
    requires t.Node?
  {
    Before(p) + InOrder(t.left) + InOrder(t.right) + Behind(p)
  }

  /** The color: label: a black node is missing on the way to the child, or none is. */
  method Repair(r: RbRoot, child: nat, parent: nat, red: bool, ghost p: Path, ghost c: Tree, ghost n: int) returns (ghost out: Tree)
    requires Holds(r.node, r.root, p, c) && child == Addr(c) && parent == Above(p)
    requires UpOk(p, n + Weight(red)) && Height(c, n) && Colored(c) && (red ==> !IsRed(c))
    modifies r
    ensures Holds(r.node, r.root, Top, out) && RedBlack(out) && InOrder(out) == InOrder(Plug(p, c))
  {
    hide Holds;
    if !red {
      out := EraseColor(r, child, parent, p, c, n);
    } else {
      PlugOk(p, c, n);
      ToTop(r.node, r.root, p, c);
      out := Plug(p, c);
    }
  }

  method EraseSingle(r: RbRoot, at: nat, child: nat, ghost p: Path, ghost t: Tree) returns (ghost out: Tree)
    requires Holds(r.node, r.root, p, t) && t.Node? && t.at == at && RedBlack(Plug(p, t))
    requires (t.left.Leaf? || t.right.Leaf?) && child == Addr(OnlyChild(t))
    modifies r
    ensures Holds(r.node, r.root, Top, out) && RedBlack(out) && InOrder(out) == Without(p, t)
  {
    ghost var n := Unplug(p, t);
    ghost var h, root := r.node, r.root;
    ViewLinks(h, root, p, t);
    Links(h, root, p, t);
    var parent, red := r.node[at].parent, r.node[at].red;
    SingleOrder(p, t);
    hide Holds, RedBlack, InOrder, Without;
    r.SetParent(child, parent);
    r.Replace(at, child, parent);
    Unlinked(h, root, r.node, r.root, p, t);
    out := Repair(r, child, parent, red, p, OnlyChild(t), n - Weight(red));
  }

  lemma SingleOrder(p: Path, t: Tree)
    requires t.Node? && (t.left.Leaf? || t.right.Leaf?)
    ensures InOrder(Plug(p, OnlyChild(t))) == Without(p, t)
  {
    PlugSplit(p, OnlyChild(t));
  }

  /** The leftmost node of the right subtree. */
  method Successor(r: RbRoot, at: nat, ghost p: Path, ghost t: Tree) returns (node: nat, ghost q: Path, ghost k: nat, ghost s: Tree)
    requires Holds(r.node, r.root, p, t) && t.Node? && t.at == at && t.right.Node?
    ensures Holds(r.node, r.root, q, s) && s.Node? && s.left.Leaf? && node == s.at
    ensures Spine(q, k, BaseOf(t, t.at, p)) && Down(q, k, s) == t.right
  {
    q, k, s := BaseOf(t, t.at, p), 0, t.right;
    Move(r.node, r.root, q.frame, p, s);
    ViewLinks(r.node, r.root, p, t);
    node := r.node[at].right;
    ViewLinks(r.node, r.root, q, s);
    hide Holds;
    while r.node[node].left != NULL
      invariant Holds(r.node, r.root, q, s) && s.Node? && node == s.at && node in r.node
      invariant r.node[node].left == Addr(s.left) && (s.left.Node? ==> s.left.at != NULL)
      invariant Spine(q, k, BaseOf(t, t.at, p)) && Down(q, k, s) == t.right
      decreases s
    {
      node := r.node[node].left;
      ghost var f := Frame(true, s.at, s.red, s.right);
      Move(r.node, r.root, f, q, s.left);
      q, k, s := Under(f, q), k + 1, s.left;
      ViewLinks(r.node, r.root, q, s);
    }
  }

  lemma SwapStart(h: Memory, root: nat, p: Path, t: Tree, q: Path, k: nat, s: Tree)
    requires Holds(h, root, q, s) && s.Node? && s.left.Leaf? && t.Node? && t.left.Node? && t.right.Node?
    requires Spine(q, k, BaseOf(t, t.at, p)) && Down(q, k, s) == t.right
    ensures SwapReady(h, t.at, s.at, Addr(s.right), Above(q), Above(p), t.left.at, t.right.at) && (Above(q) == t.at <==> k == 0)
    ensures h[s.at].red == s.red
    ensures Above(Rebased(q, k, BaseOf(t, s.at, p))) == if k == 0 then s.at else Above(q)
  {
    SwapFacts(h, root, p, t, q, k, s);
    ViewLinks(h, root, q, s);
    RebasedSpine(q, k, BaseOf(t, t.at, p), BaseOf(t, s.at, p), s.right);
    hide Holds, Spine, Down;
  }

  method Detach(r: RbRoot, gone: nat, node: nat, child: nat, parent: nat)
    requires gone in r.node && node in r.node && parent in r.node && (child != NULL ==> child in r.node)
    requires gone != child && gone != parent && gone != node
    requires r.node[gone].right != NULL ==> r.node[gone].right in r.node
    modifies r`node
    ensures r.node == Detached(old(r.node), gone, node, child, parent, old(r.node[gone].right))
  {
    r.SetParent(child, parent);
    r.node := r.node[parent := r.node[parent].(left := child)];
    r.node := r.node[node := r.node[node].(right := r.node[gone].right)];
    r.SetParent(r.node[gone].right, node);
  }

  /** The successor takes the place of the node, and its child takes its own. */
  method Swap(r: RbRoot, gone: nat, node: nat, ghost p: Path, ghost t: Tree, ghost q: Path, ghost k: nat, ghost s: Tree)
    returns (child: nat, parent: nat, red: bool, ghost q2: Path)
    requires Holds(r.node, r.root, q, s) && s.Node? && s.left.Leaf? && t.Node? && t.left.Node? && t.right.Node?
    requires Spine(q, k, BaseOf(t, t.at, p)) && Down(q, k, s) == t.right && gone == t.at && node == s.at
    modifies r
    ensures q2 == Rebased(q, k, BaseOf(t, s.at, p)) && Holds(r.node, r.root, q2, s.right)
    ensures child == Addr(s.right) && parent == Above(q2) && red == s.red
  {
    ghost var h, root := r.node, r.root;
    SwapStart(h, root, p, t, q, k, s);
    q2 := Rebased(q, k, BaseOf(t, s.at, p));
    hide Holds, Spine, Down, Rebased, BaseOf;
    r.Replace(gone, node, r.node[gone].parent);
    child, parent, red := r.node[node].right, r.node[node].parent, r.node[node].red;
    if parent == gone {
      parent := node;
    } else {
      Detach(r, gone, node, child, parent);
    }
    r.node := r.node[node := r.node[node].(red := r.node[gone].red, parent := r.node[gone].parent)];
    r.node := r.node[node := r.node[node].(left := r.node[gone].left)];
    r.SetParent(r.node[gone].left, node);
    hide Hung, Replaced, Detached;
    assert r.node == Swapped(h, gone, node, child, Above(q), Above(p), t.left.at, t.right.at);
    hide Swapped, SwapReady;
    SwapHolds(h, root, r.root, p, t, q, k, s);
  }

  /** The order after the swap is the old one without the node. */
  lemma SwapOrder(p: Path, t: Tree, q: Path, k: nat, s: Tree)
    requires s.Node? && s.left.Leaf? && t.Node? && Spine(q, k, BaseOf(t, t.at, p)) && Down(q, k, s) == t.right
    ensures InOrder(Plug(Rebased(q, k, BaseOf(t, s.at, p)), s.right)) == Without(p, t)
  {
    var base2 := BaseOf(t, s.at, p);
    var q2 := Rebased(q, k, base2);
    RebasedSpine(q, k, BaseOf(t, t.at, p), base2, s.right);
    DownPlug(q2, k, base2, s.right);
    DownOrder(q, k, BaseOf(t, t.at, p), s);
    DownOrder(q2, k, base2, s.right);
    SameBetween(q, k, BaseOf(t, t.at, p), base2);
    PlugSplit(p, Node(t.left, s.at, t.red, Down(q, k, s.right)));
    assert InOrder(s) == [s.at] + InOrder(s.right);
    SwapGroup(Before(p), InOrder(t.left), s.at, InOrder(s.right), Between(q, k), Behind(p));
  }

  lemma SwapGroup(b: seq<nat>, l: seq<nat>, x: nat, c: seq<nat>, rest: seq<nat>, e: seq<nat>)
    ensures b + (l + [x] + (c + rest)) + e == b + l + (([x] + c) + rest) + e
  {
  }

  lemma {:induction false} DownPlug(q: Path, k: nat, base: Path, t: Tree)
    requires Spine(q, k, base)
    ensures Plug(q, t) == Plug(base, Down(q, k, t))
    decreases k
  {
    if k > 0 {
      DownPlug(q.up, k - 1, base, Join(q.frame, t));
    }
  }

  lemma {:induction false} SameBetween(q: Path, k: nat, base: Path, base2: Path)
    requires Spine(q, k, base)
    ensures Between(Rebased(q, k, base2), k) == Between(q, k)
    decreases k
  {
    if k > 0 {
      SameBetween(q.up, k - 1, base, base2);
    }
  }

  /** The heights around the successor. */
  lemma SwapHeights(p: Path, t: Tree, q: Path, k: nat, s: Tree) returns (n: int)
    requires s.Node? && s.left.Leaf? && t.Node? && Spine(q, k, BaseOf(t, t.at, p)) && Down(q, k, s) == t.right
    requires RedBlack(Plug(p, t))
    ensures UpOk(Rebased(q, k, BaseOf(t, s.at, p)), n + Weight(s.red)) && Height(s.right, n) && Colored(s.right)
    ensures s.red ==> !IsRed(s.right)
  {
    DownPlug(q, k, BaseOf(t, t.at, p), s);
    assert Plug(BaseOf(t, t.at, p), t.right) == Plug(p, t);
    var m := Unplug(q, s);
    RebasedOk(q, k, BaseOf(t, t.at, p), Frame(false, s.at, t.red, t.left), m);
    n := m - Weight(s.red);
  }

  /** rb_erase: afterwards all rules hold, and the nodes are the same in the same
      order but for the one that is gone. */
  method Erase(r: RbRoot, at: nat, ghost p: Path, ghost t: Tree) returns (ghost out: Tree)
    requires Holds(r.node, r.root, p, t) && t.Node? && t.at == at && RedBlack(Plug(p, t))
    modifies r
    ensures Holds(r.node, r.root, Top, out) && RedBlack(out)
    ensures InOrder(Plug(p, t)) == Before(p) + InOrder(t.left) + [at] + InOrder(t.right) + Behind(p)
    ensures InOrder(out) == Before(p) + InOrder(t.left) + InOrder(t.right) + Behind(p)
  {
    PlugSplit(p, t);
    assert InOrder(Plug(p, t)) == Before(p) + InOrder(t.left) + [at] + InOrder(t.right) + Behind(p);
    ViewLinks(r.node, r.root, p, t);
    hide Holds, RedBlack, InOrder, Spine, Down, Plug, Before, Behind, Rebased, BaseOf, UpOk, Height, Colored;
    if r.node[at].left == NULL {
      out := EraseSingle(r, at, r.node[at].right, p, t);
    } else if r.node[at].right == NULL {
      out := EraseSingle(r, at, r.node[at].left, p, t);
    } else {
      ghost var q, k, s;
      var node: nat;
      node, q, k, s := Successor(r, at, p, t);
      ghost var n := SwapHeights(p, t, q, k, s);
      var child, parent, red;
      ghost var q2;
      child, parent, red, q2 := Swap(r, at, node, p, t, q, k, s);
      SwapOrder(p, t, q, k, s);
      out := Repair(r, child, parent, red, q2, s.right, n);
    }
  }
}
