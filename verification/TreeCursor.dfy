/** The map cursor of module/treemap.c: it stands before the first node, on a node, or
    behind the last one, and remembers both neighbours. */
module TreeCursor {
  import opened RbTree
  import opened RbWalk
  import opened TreeMap

  datatype State = AtBegin | AtEnd | AtData | Invalid

  class Cursor<V> {
    const m: Map<V>
    var state: State
    var prev: nat
    var curr: nat
    var next: nat

    /** The cursor stands on entry `i` of the order; -1 is before the first one. */
    ghost predicate Stands(i: int)
      reads this, m, m.r
    {
      && m.Valid() && -1 <= i <= |m.Order()|
      && state == (if i < 0 then AtBegin else if i == |m.Order()| then AtEnd else AtData)
      && prev == Entry(m.Order(), i - 1) && curr == Entry(m.Order(), i) && next == Entry(m.Order(), i + 1)
    }

    constructor (tmap: Map<V>)
      ensures m == tmap && state == Invalid
    {
      m := tmap;
      state, prev, curr, next := Invalid, NULL, NULL, NULL;
    }

    /** map_cursor_copy */
    method Copy(from: Cursor<V>, ghost i: int)
      requires from.m == m && from.Stands(i) && from != this
      modifies this
      ensures Stands(i)
    {
      state, prev, curr, next := from.state, from.prev, from.curr, from.next;
    }

    method Begin()
      requires m.Valid()
      modifies this
      ensures Stands(-1)
    {
      state, prev, curr := AtBegin, NULL, NULL;
      next := First(m.r, m.tree);
    }

    method End()
      requires m.Valid()
      modifies this
      ensures Stands(|m.Order()|)
    {
      state, curr, next := AtEnd, NULL, NULL;
      prev := Last(m.r, m.tree);
    }

    /** On a node of the map, or invalid. */
    method Put(at: nat, ghost i: int)
      requires m.Valid() && at == Entry(m.Order(), i) && (at != NULL ==> 0 <= i < |m.Order()|)
      modifies this
      ensures if at != NULL then Stands(i) else state == Invalid
    {
      curr := at;
      if curr == NULL {
        state, prev, next := Invalid, NULL, NULL;
      } else {
        state := AtData;
        prev := Prev(m.r, curr, m.tree, i);
        next := RbWalk.Next(m.r, curr, m.tree, i);
      }
    }

    /** map_cursor_search finds the entry that is asked for, if there is one. */
    method Search(k: nat, flag: Flag) returns (found: bool)
      requires m.Valid()
      modifies this
      ensures m.Valid()
      ensures var i := Place(m.Keys(), k, flag);
        && (found <==> flag.BEGIN? || flag.END? || 0 <= i < |m.Order()|)
        && (found ==> Stands(i)) && (!found ==> state == Invalid)
    {
      EntriesThere(m.r.node, m.r.root, m.tree);
      hide Holds, Ascending, Low, Has, KeysOf;
      match flag {
        case BEGIN => Begin();
        case END => End();
        case _ =>
          var at := m.Lookup(k, flag);
          Put(at, Place(m.Keys(), k, flag));
      }
      found := state != Invalid;
    }

    /** map_next of a node that may be missing. */
    method After(at: nat, ghost i: int) returns (node: nat)
      requires m.Valid() && -1 <= i && at == Entry(m.Order(), i) && (at == NULL <==> i < 0 || i >= |m.Order()|)
      ensures 0 <= i ==> node == Entry(m.Order(), i + 1)
      ensures i < 0 ==> node == NULL
    {
      if at == NULL {
        node := NULL;
      } else {
        node := RbWalk.Next(m.r, at, m.tree, i);
      }
    }

    /** map_cursor_next goes one entry on, if it is not behind the last one yet. */
    method Next(ghost i: int) returns (data: bool)
      requires Stands(i)
      modifies this
      ensures Stands(if i < |m.Order()| then i + 1 else i)
      ensures data <==> i + 1 < |m.Order()|
    {
      EntriesThere(m.r.node, m.r.root, m.tree);
      if state == AtBegin || state == AtData {
        prev := curr;
        curr := next;
        next := After(curr, i + 1);
        state := if curr != NULL then AtData else AtEnd;
      }
      data := state == AtData;
    }

    /** map_cursor_prev goes one entry back. */
    method Back(ghost i: int) returns (data: bool)
      requires Stands(i)
      modifies this
      ensures Stands(if i >= 0 then i - 1 else i)
      ensures data <==> i > 0
    {
      EntriesThere(m.r.node, m.r.root, m.tree);
      if state == AtEnd || state == AtData {
        next := curr;
        curr := prev;
        if curr != NULL {
          prev := Prev(m.r, curr, m.tree, i - 1);
          state := AtData;
        } else {
          prev := NULL;
          state := AtBegin;
        }
      }
      data := state == AtData;
    }

    /** map_cursor_del takes the entry out, and the cursor stands on the one behind it. */
    method Del(ghost i: int) returns (ok: bool)
      requires Stands(i)
      modifies this, m`tree, m.r
      ensures Stands(i) && (ok <==> 0 <= i < |old(m.Order())|)
      ensures ok ==> m.Order() == old(m.Order())[..i] + old(m.Order())[i + 1..] && m.Items() == old(m.Items())[..i] + old(m.Items())[i + 1..]
      ensures !ok ==> m.Order() == old(m.Order()) && m.Items() == old(m.Items())
    {
      if state != AtData {
        return false;
      }
      var t, before := curr, prev;
      EntriesThere(m.r.node, m.r.root, m.tree);
      var more := Next(i);
      prev := before;
      ghost var was := m.Order();
      m.EraseAt(t, i);
      EntriesThere(m.r.node, m.r.root, m.tree);
      Shifted(was, m.Order(), i);
      ok := true;
    }
  }

  lemma EntriesThere(h: Memory, root: nat, tree: Tree)
    requires Holds(h, root, Top, tree)
    ensures forall j | 0 <= j < |InOrder(tree)| :: InOrder(tree)[j] != NULL
  {
    NullNotIn(h, root, Top, tree);
    forall j | 0 <= j < |InOrder(tree)| ensures InOrder(tree)[j] != NULL {
      assert InOrder(Plug(Top, tree))[j] in InOrder(Plug(Top, tree));
    }
  }

  lemma Shifted(s: seq<nat>, s2: seq<nat>, i: nat)
    requires i < |s| && s2 == s[..i] + s[i + 1..]
    ensures Entry(s2, i - 1) == Entry(s, i - 1) && Entry(s2, i) == Entry(s, i + 1) && Entry(s2, i + 1) == Entry(s, i + 2)
    ensures |s2| == |s| - 1
  {
  }
}
