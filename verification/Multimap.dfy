/** The multimap of module/treemap.c: a map from keys to nonempty lists of cells, and
    its cursor, which walks the cells as one list sorted by key. */
module Multimap {
  import opened RbTree
  import opened RbWalk
  import opened TreeMap
  import opened TreeCursor

  // ------------------------------------------------------------ cells in a row

  function Cells<V>(item: Item<seq<V>>): (s: seq<Item<V>>)
    ensures |s| == |item.val|
  {
    seq(|item.val|, j requires 0 <= j < |item.val| => Item(item.key, item.val[j]))
  }

  /** All cells in the order of the cursor. */
  function Flat<V>(items: seq<Item<seq<V>>>): seq<Item<V>> {
    if items == [] then [] else Cells(items[0]) + Flat(items[1..])
  }

  /** The place of the first cell of entry `i`. */
  function Offset<V>(items: seq<Item<seq<V>>>, i: nat): (n: nat)
    requires i <= |items|
    ensures n <= |Flat(items)|
  {
    FlatConcat(items[..i], items[i..]);
    assert items == items[..i] + items[i..];
    |Flat(items[..i])|
  }

  lemma {:induction false} FlatConcat<V>(a: seq<Item<seq<V>>>, b: seq<Item<seq<V>>>)
    ensures Flat(a + b) == Flat(a) + Flat(b)
    decreases |a|
  {
    if a == [] {
      assert a + b == b;
    } else {
      assert (a + b)[1..] == a[1..] + b;
      FlatConcat(a[1..], b);
    }
  }

  lemma FlatAt<V>(items: seq<Item<seq<V>>>, i: nat)
    requires i < |items|
    ensures Flat(items) == Flat(items[..i]) + Cells(items[i]) + Flat(items[i + 1..])
    ensures Offset(items, i + 1) == Offset(items, i) + |items[i].val|
  {
    FlatConcat(items[..i], items[i..]);
    assert items == items[..i] + items[i..] && items[i..][1..] == items[i + 1..];
    FlatConcat(items[..i], [items[i]]);
    assert items[..i + 1] == items[..i] + [items[i]] && Flat([items[i]]) == Cells(items[i]) + Flat([items[i]][1..]);
  }

  /** Keys ascend strictly from entry to entry. */
  ghost predicate Sorted<V>(items: seq<Item<seq<V>>>) {
    forall i, j | 0 <= i < j < |items| :: items[i].key < items[j].key
  }

  /** No list is empty, and none holds a value twice. */
  ghost predicate ListsOk<V>(items: seq<Item<seq<V>>>) {
    forall i | 0 <= i < |items| :: items[i].val != [] && NoRepeat(items[i].val)
  }

  ghost predicate NoRepeat<V>(s: seq<V>) {
    forall a, b | 0 <= a < b < |s| :: s[a] != s[b]
  }

  /** The first cell whose key is not below `k`. */
  ghost predicate FirstFrom<V>(cells: seq<Item<V>>, k: nat, n: nat) {
    n <= |cells| && (forall a | 0 <= a < n :: cells[a].key < k) && (forall a | n <= a < |cells| :: cells[a].key >= k)
  }

  lemma {:induction false} FlatKeys<V>(items: seq<Item<seq<V>>>, a: nat) returns (i: nat)
    requires a < |Flat(items)|
    ensures i < |items| && Flat(items)[a].key == items[i].key && Offset(items, i) <= a < Offset(items, i) + |items[i].val|
    ensures Flat(items)[a] == Item(items[i].key, items[i].val[a - Offset(items, i)])
    decreases |items|
  {
    var n := |items| - 1;
    FlatAt(items, n);
    assert items[n + 1..] == [];
    if a < Offset(items, n) {
      i := FlatKeys(items[..n], a);
      assert items[..n][..i] == items[..i];
    } else {
      i := n;
    }
  }

  lemma {:induction false} OffsetMono<V>(items: seq<Item<seq<V>>>, i: nat, j: nat)
    requires i <= j <= |items|
    ensures Offset(items, i) <= Offset(items, j) <= |Flat(items)|
    decreases j
  {
    if i < j {
      FlatAt(items, j - 1);
      OffsetMono(items, i, j - 1);
    } else if j < |items| {
      FlatAt(items, j);
    } else {
      assert items[..j] == items;
    }
    if j < |items| {
      FlatAt(items, j);
    } else {
      assert items[..j] == items;
    }
  }

  lemma KeyPlace<V>(items: seq<Item<seq<V>>>, k: nat, n: nat, i: nat)
    requires Sorted(items) && n <= |items| && i < |items|
    requires (forall i | 0 <= i < n :: items[i].key < k) && (n < |items| ==> items[n].key >= k)
    ensures items[i].key < k <==> i < n
  {
    if n < i {
      assert items[n].key < items[i].key;
    }
  }

  lemma FlatPlace<V>(items: seq<Item<seq<V>>>, k: nat, n: nat, a: nat)
    requires Sorted(items) && n <= |items| && a < |Flat(items)|
    requires (forall i | 0 <= i < n :: items[i].key < k) && (n < |items| ==> items[n].key >= k)
    ensures Flat(items)[a].key < k <==> a < Offset(items, n)
  {
    var i := FlatKeys(items, a);
    KeyPlace(items, k, n, i);
    FlatAt(items, i);
    hide Flat, Offset, Sorted;
    if i < n {
      OffsetMono(items, i + 1, n);
    } else {
      OffsetMono(items, n, i);
    }
  }

  /** Searching the keys and searching the cells is the same. */
  lemma FlatLow<V>(items: seq<Item<seq<V>>>, k: nat, n: nat)
    requires Sorted(items) && n <= |items|
    requires (forall i | 0 <= i < n :: items[i].key < k) && (n < |items| ==> items[n].key >= k)
    ensures FirstFrom(Flat(items), k, Offset(items, n))
  {
    hide Flat, Offset, Sorted;
    forall a | 0 <= a < |Flat(items)| ensures Flat(items)[a].key < k <==> a < Offset(items, n) {
      FlatPlace(items, k, n, a);
    }
  }

  // ------------------------------------------------------------- the multimap

  lemma ItemsSorted<V>(key: map<nat, nat>, val: map<nat, seq<V>>, s: seq<nat>)
    requires (forall j | 0 <= j < |s| :: s[j] in key && s[j] in val) && Ascending(KeysOf(key, s))
    ensures Sorted(ItemsOf(key, val, s))
  {
    forall i, j | 0 <= i < j < |s| ensures key[s[i]] < key[s[j]] {
      assert KeysOf(key, s)[i] < KeysOf(key, s)[j];
    }
  }

  lemma LowItems<V>(key: map<nat, nat>, val: map<nat, seq<V>>, s: seq<nat>, k: nat)
    requires (forall j | 0 <= j < |s| :: s[j] in key && s[j] in val)
    ensures var n, items := Low(KeysOf(key, s), k), ItemsOf(key, val, s);
      n <= |items| && (forall i | 0 <= i < n :: items[i].key < k) && (n < |items| ==> items[n].key >= k)
      && (Has(KeysOf(key, s), k) <==> n < |items| && items[n].key == k)
  {
    var n, items := Low(KeysOf(key, s), k), ItemsOf(key, val, s);
    forall i | 0 <= i < n ensures items[i].key < k {
      assert KeysOf(key, s)[i] < k;
    }
  }

  lemma CellThere<V>(items: seq<Item<seq<V>>>, n: nat, v: V)
    requires n < |items| && v in items[n].val
    ensures Item(items[n].key, v) in Flat(items)
  {
    FlatAt(items, n);
    hide Flat, Offset;
    var j :| 0 <= j < |items[n].val| && items[n].val[j] == v;
    assert Flat(items)[|Flat(items[..n])| + j] == Cells(items[n])[j];
  }

  lemma CellIn<V>(items: seq<Item<seq<V>>>, k: nat, v: V) returns (i: nat)
    requires Item(k, v) in Flat(items)
    ensures i < |items| && items[i].key == k && v in items[i].val
  {
    var a :| 0 <= a < |Flat(items)| && Flat(items)[a] == Item(k, v);
    i := FlatKeys(items, a);
    hide Flat, Offset;
  }

  /** A cell with this key and value is there exactly if the list of the key has it. */
  lemma FlatHas<V>(items: seq<Item<seq<V>>>, n: nat, k: nat, v: V)
    requires Sorted(items) && n <= |items|
    requires (forall i | 0 <= i < n :: items[i].key < k) && (n < |items| ==> items[n].key >= k)
    ensures Item(k, v) in Flat(items) <==> n < |items| && items[n].key == k && v in items[n].val
  {
    hide Flat;
    if Item(k, v) in Flat(items) {
      var i := CellIn(items, k, v);
      KeyPlace(items, k, n, i);
      assert i == n;
    } else if n < |items| && items[n].key == k && v in items[n].val {
      CellThere(items, n, v);
    }
  }

  lemma SplitAt<T>(s: seq<T>, a: seq<T>, b: seq<T>)
    requires s == a + b
    ensures s[..|a|] == a && s[|a|..] == b
  {
  }

  /** A new list of one cell. */
  lemma FlatNewKey<V>(items: seq<Item<seq<V>>>, n: nat, k: nat, v: V)
    requires n <= |items|
    ensures Flat(items[..n] + [Item(k, [v])] + items[n..]) == Flat(items)[..Offset(items, n)] + [Item(k, v)] + Flat(items)[Offset(items, n)..]
  {
    hide Flat;
    var a, b, one := items[..n], items[n..], [Item(k, [v])];
    FlatConcat(a, b);
    FlatConcat(a + one, b);
    FlatConcat(a, one);
    assert items == a + b;
    FlatOne(k, v);
    SplitAt(Flat(items), Flat(a), Flat(b));
  }

  lemma FlatOne<V>(k: nat, v: V)
    ensures Flat([Item(k, [v])]) == [Item(k, v)]
  {
    var one := [Item(k, [v])];
    assert one[1..] == [] && Cells(one[0]) == [Item(k, v)] && Flat(one) == Cells(one[0]) + Flat(one[1..]);
  }

  /** A new cell at the head of a list. */
  lemma FlatOldKey<V>(items: seq<Item<seq<V>>>, n: nat, v: V)
    requires n < |items|
    ensures Flat(items[n := Item(items[n].key, [v] + items[n].val)])
         == Flat(items)[..Offset(items, n)] + [Item(items[n].key, v)] + Flat(items)[Offset(items, n)..]
  {
    var more := items[n := Item(items[n].key, [v] + items[n].val)];
    FlatAt(items, n);
    FlatAt(more, n);
    assert more[..n] == items[..n] && more[n + 1..] == items[n + 1..];
    assert Cells(more[n]) == [Item(items[n].key, v)] + Cells(items[n]);
  }

  lemma AddedLists<V>(items: seq<Item<seq<V>>>, n: nat, k: nat, v: V)
    requires ListsOk(items) && n <= |items|
    ensures ListsOk(items[..n] + [Item(k, [v])] + items[n..])
    ensures n < |items| && v !in items[n].val ==> ListsOk(items[n := Item(items[n].key, [v] + items[n].val)])
  {
    var more := items[..n] + [Item(k, [v])] + items[n..];
    forall i | 0 <= i < |more| ensures more[i].val != [] && NoRepeat(more[i].val) {
      if i != n {
        assert more[i] == items[if i < n then i else i - 1];
      }
    }
  }

  method InList<V(==)>(list: seq<V>, v: V) returns (found: bool)
    ensures found <==> v in list
  {
    var j := 0;
    found := false;
    while j < |list| && !found
      invariant j <= |list| && (found <==> v in list[..j])
    {
      found := list[j] == v;
      j := j + 1;
    }
  }

  class Multi<V(==)> {
    const m: Map<seq<V>>

    ghost predicate Valid()
      reads m, m.r
    {
      m.Valid() && ListsOk(m.Items())
    }

    constructor ()
      ensures Valid() && fresh(m) && fresh(m.r) && Flat(m.Items()) == []
    {
      m := new Map();
    }

    /** multimap_add puts the cell before all others of its key; a pair that is there
        already is refused. */
    method Add(at: nat, k: nat, v: V) returns (ok: bool, ghost n: nat)
      requires Valid() && at != NULL && at !in Nodes(m.tree)
      modifies m, m.r
      ensures Valid() && FirstFrom(old(Flat(m.Items())), k, n)
      ensures ok <==> Item(k, v) !in old(Flat(m.Items()))
      ensures Flat(m.Items()) == if ok then old(Flat(m.Items()))[..n] + [Item(k, v)] + old(Flat(m.Items()))[n..] else old(Flat(m.Items()))
    {
      ghost var items, low := m.Items(), Low(m.Keys(), k);
      ItemsSorted(m.key, m.val, m.Order());
      EntriesThere(m.r.node, m.r.root, m.tree);
      LowItems(m.key, m.val, m.Order(), k);
      FlatLow(items, k, low);
      FlatHas(items, low, k, v);
      AddedLists(items, low, k, v);
      n := Offset(items, low);
      hide Holds, Sorted, Flat, ListsOk, Ascending, FirstFrom, KeysOf, Low, Has, Offset;
      var t := m.Lookup(k, EQ);
      if t != NULL {
        var found := InList(m.val[t], v);
        if found {
          return false, n;
        }
        FlatOldKey(items, low, v);
        m.SetVal(t, [v] + m.val[t], low);
        ok := true;
      } else {
        FlatNewKey(items, low, k, v);
        ok := m.Add(at, k, [v]);
      }
    }

    /** multimap_is_empty */
    method IsEmpty() returns (empty: bool)
      requires Valid()
      ensures empty <==> Flat(m.Items()) == []
    {
      EntriesThere(m.r.node, m.r.root, m.tree);
      ghost var items := m.Items();
      if items != [] {
        FlatAt(items, 0);
      }
      hide Holds;
      var first := First(m.r, m.tree);
      empty := first == NULL;
    }

    /** multimap_del takes out the one cell with the key and the value. */
    method Del(k: nat, v: V) returns (ok: bool, ghost a: nat)
      requires Valid()
      modifies m, m.r
      ensures Valid() && (ok <==> Item(k, v) in old(Flat(m.Items())))
      ensures ok ==> a < |old(Flat(m.Items()))| && old(Flat(m.Items()))[a] == Item(k, v)
      ensures Flat(m.Items()) == if ok then old(Flat(m.Items()))[..a] + old(Flat(m.Items()))[a + 1..] else old(Flat(m.Items()))
    {
      ghost var items, low := m.Items(), Low(m.Keys(), k);
      ItemsSorted(m.key, m.val, m.Order());
      EntriesThere(m.r.node, m.r.root, m.tree);
      LowItems(m.key, m.val, m.Order(), k);
      FlatHas(items, low, k, v);
      hide Holds, Sorted, Flat, ListsOk, Ascending, KeysOf, Low, Has, Offset;
      a := 0;
      var t := m.Lookup(k, EQ);
      if t == NULL {
        return false, a;
      }
      var rest, j := RemoveFrom(m.val[t], v);
      if j == |m.val[t]| {
        return false, a;
      }
      a := Offset(items, low) + j;
      DroppedCell(items, low, j);
      hide Fewer, NoRepeat;
      Shrink(t, k, rest, low, j);
      ok := true;
    }

    /** A shorter list for the key, or none. */
    method Shrink(t: nat, k: nat, rest: seq<V>, ghost low: nat, ghost j: nat)
      requires m.Valid() && low == Low(m.Keys(), k) && Has(m.Keys(), k) && t == m.Order()[low]
      requires j < |m.Items()[low].val| && rest == m.Items()[low].val[..j] + m.Items()[low].val[j + 1..]
      modifies m, m.r
      ensures m.Valid() && m.Items() == Fewer(old(m.Items()), low, j)
    {
      hide Holds, Ascending;
      if |rest| == 0 {
        var ok := m.Del(k);
      } else {
        m.SetVal(t, rest, low);
      }
    }
  }

  /** The list without the value, and where that was. */
  method RemoveFrom<V(==)>(list: seq<V>, v: V) returns (rest: seq<V>, j: nat)
    requires NoRepeat(list)
    ensures j <= |list| && (j < |list| <==> v in list)
    ensures j < |list| ==> list[j] == v && rest == list[..j] + list[j + 1..]
  {
    var i := 0;
    rest, j := [], |list|;
    while i < |list|
      invariant i <= |list| && (j < |list| ==> j < i && list[j] == v && rest == list[..j] + list[j + 1..i])
      invariant j >= |list| ==> j == |list| && v !in list[..i] && rest == list[..i]
    {
      if list[i] == v {
        j := i;
      } else {
        rest := rest + [list[i]];
      }
      i := i + 1;
    }
  }

  /** Cell `j` of entry `n` leaves; with the last cell the entry leaves too. */
  function Fewer<V>(items: seq<Item<seq<V>>>, n: nat, j: nat): seq<Item<seq<V>>>
    requires n < |items| && j < |items[n].val|
  {
    var rest := items[n].val[..j] + items[n].val[j + 1..];
    if rest == [] then items[..n] + items[n + 1..] else items[n := Item(items[n].key, rest)]
  }

  lemma DroppedCell<V>(items: seq<Item<seq<V>>>, n: nat, j: nat)
    requires ListsOk(items) && n < |items| && j < |items[n].val|
    ensures var a := Offset(items, n) + j;
      && a < |Flat(items)| && Flat(items)[a] == Item(items[n].key, items[n].val[j])
      && Flat(Fewer(items, n, j)) == Flat(items)[..a] + Flat(items)[a + 1..]
    ensures ListsOk(Fewer(items, n, j))
  {
    FewerOk(items, n, j);
    hide Flat, Cells, Fewer, ListsOk;
    FlatAt(items, n);
    CellAt(items[n], j);
    CellsWithout(items[n], j);
    Middle(Flat(items[..n]), Cells(items[n]), Flat(items[n + 1..]), j);
    FewerFlat(items, n, j);
  }

  lemma CellAt<V>(item: Item<seq<V>>, j: nat)
    requires j < |item.val|
    ensures Cells(item)[j] == Item(item.key, item.val[j])
  {
  }

  lemma Middle<T>(a: seq<T>, b: seq<T>, c: seq<T>, j: nat)
    requires j < |b|
    ensures var s, n := a + b + c, |a| + j; s[n] == b[j] && s[..n] + s[n + 1..] == a + (b[..j] + b[j + 1..]) + c
  {
  }

  lemma CellsWithout<V>(item: Item<seq<V>>, j: nat)
    requires j < |item.val|
    ensures Cells(item)[..j] + Cells(item)[j + 1..] == Cells(Item(item.key, item.val[..j] + item.val[j + 1..]))
  {
  }

  lemma FewerFlat<V>(items: seq<Item<seq<V>>>, n: nat, j: nat)
    requires n < |items| && j < |items[n].val|
    ensures Flat(Fewer(items, n, j))
         == Flat(items[..n]) + Cells(Item(items[n].key, items[n].val[..j] + items[n].val[j + 1..])) + Flat(items[n + 1..])
  {
    var rest, less := items[n].val[..j] + items[n].val[j + 1..], Fewer(items, n, j);
    if rest == [] {
      FlatConcat(items[..n], items[n + 1..]);
    } else {
      FlatAt(less, n);
      assert less[..n] == items[..n] && less[n + 1..] == items[n + 1..];
    }
  }

  lemma FewerOk<V>(items: seq<Item<seq<V>>>, n: nat, j: nat)
    requires ListsOk(items) && n < |items| && j < |items[n].val|
    ensures ListsOk(Fewer(items, n, j))
  {
  }

  // --------------------------------------------------------------- the cursor

  /** The place among all cells of cell `j` of entry `i`. */
  function FlatPos<V>(items: seq<Item<seq<V>>>, i: int, j: nat): int
    requires i <= |items|
  {
    if i < 0 then -1 else if i == |items| then |Flat(items)| else Offset(items, i) + j
  }

  /** The multimap cursor: a map cursor and, on a node, a cell of its list. A cell is
      named by its place in the list. */
  class MultiCursor<V(==)> {
    const mm: Multi<V>
    const c: Cursor<seq<V>>
    var cell: nat
    ghost var entry: int

    /** The cursor stands on cell `a` of all cells in order. */
    ghost predicate Stands(a: int)
      reads this, c, mm.m, mm.m.r
    {
      && c.m == mm.m && mm.Valid() && c.Stands(entry)
      && (0 <= entry < |mm.m.Items()| ==> cell < |mm.m.Items()[entry].val|)
      && a == FlatPos(mm.m.Items(), entry, cell)
    }

    constructor (multi: Multi<V>)
      ensures mm == multi && c.m == multi.m && fresh(c)
    {
      mm := multi;
      c := new Cursor(multi.m);
      cell, entry := 0, -1;
    }

    /** multimap_cursor_search with MAP_SEARCH_GE and the first cell of the key. */
    method SearchGE(k: nat) returns (found: bool, ghost n: nat)
      requires mm.Valid() && c.m == mm.m
      modifies this, c
      ensures FirstFrom(Flat(mm.m.Items()), k, n) && (found <==> n < |Flat(mm.m.Items())|)
      ensures found ==> Stands(n)
    {
      ghost var items, low := mm.m.Items(), Low(mm.m.Keys(), k);
      ItemsSorted(mm.m.key, mm.m.val, mm.m.Order());
      LowItems(mm.m.key, mm.m.val, mm.m.Order(), k);
      FlatLow(items, k, low);
      n := Offset(items, low);
      OffsetIn(items, low);
      found := c.Search(k, GE);
      cell, entry := 0, low;
    }

    method IsData(ghost a: int) returns (data: bool)
      requires Stands(a)
      ensures data <==> 0 <= a < |Flat(mm.m.Items())|
    {
      PosAt(mm.m.Items(), entry, cell);
      hide Holds, Flat, ListsOk, Ascending, KeysOf, Offset, FlatPos;
      data := c.state == AtData;
    }

    /** multimap_cursor_key and multimap_cursor_val */
    method KeyVal(ghost a: int) returns (key: nat, val: V)
      requires Stands(a) && 0 <= a < |Flat(mm.m.Items())|
      ensures Flat(mm.m.Items())[a] == Item(key, val)
    {
      ghost var items := mm.m.Items();
      PosAt(items, entry, cell);
      EntryCell(items, entry, cell);
      hide Holds, Flat, ListsOk, Ascending, KeysOf, Offset, FlatPos;
      key, val := mm.m.key[c.curr], mm.m.val[c.curr][cell];
    }

    /** multimap_cursor_next goes on by one cell. */
    method Next(ghost a: int) returns (data: bool)
      requires Stands(a)
      modifies this, c
      ensures Stands(if a < |Flat(mm.m.Items())| then a + 1 else a)
      ensures data <==> a + 1 < |Flat(mm.m.Items())|
    {
      ghost var items := mm.m.Items();
      PosAt(items, entry, cell);
      hide Holds, Flat, ListsOk, Ascending, KeysOf, Offset, FlatPos;
      if c.state == AtData && cell + 1 < |mm.m.val[c.curr]| {
        cell, data := cell + 1, true;
      } else if c.state == AtBegin || c.state == AtData {
        data := NextEntry();
      } else {
        data := false;
      }
      PosAt(items, entry, cell);
    }

    /** To the first cell of the next entry. */
    method NextEntry() returns (data: bool)
      requires c.m == mm.m && mm.Valid() && c.Stands(entry) && entry < |mm.m.Items()|
      modifies this, c
      ensures c.Stands(entry) && entry == old(entry) + 1 && cell == 0
      ensures data <==> entry < |mm.m.Items()|
    {
      hide Holds, Flat, ListsOk, Ascending, KeysOf;
      data := c.Next(entry);
      cell, entry := 0, entry + 1;
    }

    /** The list has one cell: the entry goes with it. A copy of the map cursor takes
        the entry out, and its place is taken over. */
    method DelEntry()
      requires c.m == mm.m && mm.Valid() && c.Stands(entry) && 0 <= entry < |mm.m.Items()| && cell == 0 && |mm.m.Items()[entry].val| == 1
      modifies this, c, mm.m, mm.m.r
      ensures c.m == mm.m && mm.m.Valid() && c.Stands(entry) && entry == old(entry) && cell == 0
      ensures mm.m.Items() == Fewer(old(mm.m.Items()), entry, 0)
    {
      hide Holds, Flat, ListsOk, Ascending, KeysOf;
      var cur := new Cursor(mm.m);
      cur.Copy(c, entry);
      var data := c.Next(entry);
      cell := 0;
      var ok := cur.Del(entry);
      c.Copy(cur, entry);
    }

    /** The list has more cells: the cursor goes on, and the cell leaves the list. */
    method DelCell()
      requires c.m == mm.m && mm.Valid() && c.Stands(entry) && 0 <= entry < |mm.m.Items()|
      requires cell < |mm.m.Items()[entry].val| && |mm.m.Items()[entry].val| > 1
      modifies this, c, mm.m`val
      ensures c.m == mm.m && mm.m.Valid() && c.Stands(entry)
      ensures mm.m.Items() == Fewer(old(mm.m.Items()), old(entry), old(cell))
      ensures if old(cell) + 1 < |old(mm.m.Items())[old(entry)].val| then entry == old(entry) && cell == old(cell)
              else entry == old(entry) + 1 && cell == 0
    {
      hide Holds, Flat, ListsOk, Ascending, KeysOf;
      var at, j, list := c.curr, cell, mm.m.val[c.curr];
      ghost var i := entry;
      if j + 1 == |list| {
        var data := NextEntry();
      }
      mm.m.SetVal(at, list[..j] + list[j + 1..], i);
    }

    /** multimap_cursor_del takes the cell out, and the cursor stands on the one behind. */
    method Del(ghost a: int) returns (ok: bool)
      requires Stands(a)
      modifies this, c, mm.m, mm.m.r
      ensures Stands(a) && (ok <==> 0 <= a < |old(Flat(mm.m.Items()))|)
      ensures Flat(mm.m.Items()) == if ok then old(Flat(mm.m.Items()))[..a] + old(Flat(mm.m.Items()))[a + 1..] else old(Flat(mm.m.Items()))
    {
      ghost var items, i, j := mm.m.Items(), entry, cell;
      PosAt(items, i, j);
      hide Holds, Flat, ListsOk, Ascending, KeysOf, Fewer, Offset, FlatPos;
      if c.state != AtData {
        return false;
      }
      DroppedCell(items, i, j);
      FewerPos(items, i, j);
      if |mm.m.val[c.curr]| == 1 {
        DelEntry();
      } else {
        DelCell();
      }
      ok := true;
    }
  }

  /** The place of the cell behind the one that left. */
  lemma FewerPos<V>(items: seq<Item<seq<V>>>, i: nat, j: nat)
    requires ListsOk(items) && i < |items| && j < |items[i].val|
    ensures var less, one, a := Fewer(items, i, j), |items[i].val| == 1, FlatPos(items, i, j);
      && a == Offset(items, i) + j
      && (one ==> |less| == |items| - 1 && FlatPos(less, i, 0) == a && (i < |less| ==> less[i] == items[i + 1]))
      && (!one ==> |less| == |items| && less[i].val == items[i].val[..j] + items[i].val[j + 1..])
      && (!one && j + 1 < |items[i].val| ==> FlatPos(less, i, j) == a)
      && (!one && j + 1 == |items[i].val| ==> FlatPos(less, i + 1, 0) == a && (i + 1 < |less| ==> less[i + 1] == items[i + 1]))
  {
    var less := Fewer(items, i, j);
    assert less[..i] == items[..i];
    FlatAt(items, i);
    if |items[i].val| == 1 {
      assert less == items[..i] + items[i + 1..];
      if i == |less| {
        assert less == items[..i];
      }
    } else {
      FlatAt(less, i);
      if i + 1 == |less| {
        assert less[..i + 1] == less;
      }
    }
  }

  lemma EntryCell<V>(items: seq<Item<seq<V>>>, i: int, j: nat)
    requires ListsOk(items) && i <= |items| && (0 <= i < |items| ==> j < |items[i].val|)
    ensures var a := FlatPos(items, i, j);
      0 <= i < |items| ==> 0 <= a < |Flat(items)| && Flat(items)[a] == Item(items[i].key, items[i].val[j])
  {
    if 0 <= i < |items| {
      FlatAt(items, i);
      assert Cells(items[i])[j] == Item(items[i].key, items[i].val[j]);
      assert Flat(items)[Offset(items, i) + j] == Cells(items[i])[j];
    }
  }

  lemma OffsetIn<V>(items: seq<Item<seq<V>>>, n: nat)
    requires ListsOk(items) && n <= |items|
    ensures Offset(items, n) < |Flat(items)| <==> n < |items|
  {
    if n < |items| {
      FlatAt(items, n);
    } else {
      assert items[..n] == items;
    }
  }

  /** Places of neighbouring cells. */
  lemma PosAt<V>(items: seq<Item<seq<V>>>, i: int, j: nat)
    requires ListsOk(items) && -1 <= i <= |items| && (0 <= i < |items| ==> j < |items[i].val|)
    ensures -1 <= FlatPos(items, i, j) <= |Flat(items)|
    ensures FlatPos(items, i, j) < |Flat(items)| <==> i < |items|
    ensures FlatPos(items, i, j) < 0 <==> i < 0
    ensures 0 <= i < |items| && j + 1 < |items[i].val| ==> FlatPos(items, i, j + 1) == FlatPos(items, i, j) + 1 < |Flat(items)|
    ensures (i < 0 || (i < |items| && j + 1 == |items[i].val|)) ==> FlatPos(items, i + 1, 0) == FlatPos(items, i, j) + 1
    ensures (i < 0 || (i < |items| && j + 1 == |items[i].val|)) ==> (FlatPos(items, i, j) + 1 < |Flat(items)| <==> i + 1 < |items|)
  {
    if 0 <= i < |items| {
      FlatAt(items, i);
      OffsetIn(items, i);
      OffsetIn(items, i + 1);
      OffsetMono(items, i + 1, |items|);
    } else if i < 0 {
      OffsetIn(items, 0);
    }
    assert items[..|items|] == items;
  }
}
