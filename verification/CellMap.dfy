/** The multimap of write wrappers by start sector, as module/overlapped_io.c and
    module/pending_io.c use it: to them it is one row of cells. */
module CellMap {
  import opened Disk
  import opened Overlapped
  import R = RbTree
  import T = TreeMap
  import M = Multimap

  /** struct bio_wrapper of a write; `id` grows with its lsid. */
  class BioWrapper {
    const id: nat
    const w: Write
    var nOverlapped: nat
    var delayed: bool
    var overwritten: bool

    constructor (i: nat, write: Write)
      ensures id == i && w == write && !delayed && !overwritten
    {
      id, w, nOverlapped, delayed, overwritten := i, write, 0, false, false;
    }
  }

  /** The cells of the multimap in cursor order: by key, the start sector. */
  ghost predicate Sorted(cells: seq<BioWrapper>) {
    forall i, j | 0 <= i < j < |cells| :: cells[i].w.pos <= cells[j].w.pos
  }

  ghost predicate Distinct(cells: seq<BioWrapper>) {
    forall i, j | 0 <= i < j < |cells| :: cells[i] != cells[j]
  }

  /** The first cell whose key is not below `key`. */
  ghost predicate KeyFrom(cells: seq<BioWrapper>, key: nat, n: nat) {
    && n <= |cells|
    && (forall i | 0 <= i < n :: cells[i].w.pos < key) && (forall i | n <= i < |cells| :: key <= cells[i].w.pos)
  }

  function Row(cells: seq<BioWrapper>): (r: seq<T.Item<BioWrapper>>)
    ensures |r| == |cells|
  {
    seq(|cells|, i requires 0 <= i < |cells| => T.Item(cells[i].w.pos, cells[i]))
  }

  lemma RowFrom(cells: seq<BioWrapper>, key: nat, n: nat)
    requires M.FirstFrom(Row(cells), key, n)
    ensures KeyFrom(cells, key, n)
  {
    forall i | 0 <= i < |cells| ensures if i < n then cells[i].w.pos < key else key <= cells[i].w.pos {
      assert Row(cells)[i].key == cells[i].w.pos;
    }
  }

  lemma RowHas(cells: seq<BioWrapper>, b: BioWrapper)
    ensures T.Item(b.w.pos, b) in Row(cells) <==> b in cells
  {
    if b in cells {
      var i :| 0 <= i < |cells| && cells[i] == b;
      assert Row(cells)[i] == T.Item(b.w.pos, b);
    }
  }

  lemma RowInsert(cells: seq<BioWrapper>, b: BioWrapper, n: nat)
    requires n <= |cells|
    ensures Row(cells)[..n] + [T.Item(b.w.pos, b)] + Row(cells)[n..] == Row(cells[..n] + [b] + cells[n..])
  {
  }

  lemma RowWithout(cells: seq<BioWrapper>, k: nat)
    requires k < |cells|
    ensures Row(cells)[..k] + Row(cells)[k + 1..] == Row(Without(cells, k))
  {
  }

  class Cells {
    const mm: M.Multi<BioWrapper>
    ghost var cells: seq<BioWrapper>

    ghost predicate Valid()
      reads this, mm.m, mm.m.r
    {
      mm.Valid() && M.Flat(mm.m.Items()) == Row(cells) && Distinct(cells) && Sorted(cells)
    }

    /** An address for a new node of the tree. */
    ghost predicate Free(at: nat)
      reads mm.m
    {
      at != R.NULL && at !in R.Nodes(mm.m.tree)
    }

    constructor ()
      ensures Valid() && cells == [] && fresh(mm) && fresh(mm.m) && fresh(mm.m.r)
    {
      mm := new M.Multi();
      cells := [];
      new;
      assert Row([]) == [];
    }

    /** multimap_add under the start sector. */
    method Add(at: nat, b: BioWrapper) returns (ghost n: nat)
      requires Valid() && Free(at) && b !in cells
      modifies this, mm.m, mm.m.r
      ensures Valid() && KeyFrom(old(cells), b.w.pos, n) && cells == old(cells)[..n] + [b] + old(cells)[n..]
    {
      RowHas(cells, b);
      var ok;
      ok, n := mm.Add(at, b.w.pos, b);
      RowFrom(cells, b.w.pos, n);
      RowInsert(cells, b, n);
      InsertSorted(cells, b, n);
      cells := cells[..n] + [b] + cells[n..];
    }

    /** multimap_del */
    method Del(b: BioWrapper) returns (ghost k: nat)
      requires Valid() && b in cells
      modifies this, mm.m, mm.m.r
      ensures Valid() && k < |old(cells)| && old(cells)[k] == b && cells == Without(old(cells), k) && b !in cells
    {
      RowHas(cells, b);
      var ok;
      ok, k := mm.Del(b.w.pos, b);
      assert Row(cells)[k] == T.Item(b.w.pos, b);
      RowWithout(cells, k);
      RemoveSorted(cells, k);
      cells := Without(cells, k);
    }

    method IsEmpty() returns (empty: bool)
      requires Valid()
      ensures empty <==> cells == []
    {
      empty := mm.IsEmpty();
      assert |Row(cells)| == |cells|;
    }
  }

  /** What users of the map see of it. */
  lemma InOrder(data: Cells)
    requires data.Valid()
    ensures Distinct(data.cells) && Sorted(data.cells)
  {
  }

  lemma InsertSorted(cells: seq<BioWrapper>, b: BioWrapper, n: nat)
    requires Sorted(cells) && Distinct(cells) && b !in cells && KeyFrom(cells, b.w.pos, n)
    ensures var r := cells[..n] + [b] + cells[n..]; Sorted(r) && Distinct(r)
  {
  }

  lemma RemoveSorted(cells: seq<BioWrapper>, k: nat)
    requires Sorted(cells) && Distinct(cells) && k < |cells|
    ensures Sorted(Without(cells, k)) && Distinct(Without(cells, k)) && cells[k] !in Without(cells, k)
  {
  }

  /** A cursor over the row: it stands on cell `a`, or behind the last one. */
  class CellCursor {
    const cm: Cells
    const mc: M.MultiCursor<BioWrapper>

    ghost predicate Stands(a: nat)
      reads this, cm, cm.mm.m, cm.mm.m.r, mc, mc.c, mc.mm.m, mc.mm.m.r
    {
      mc.mm == cm.mm && cm.Valid() && a <= |cm.cells| && mc.Stands(a)
    }

    constructor (bios: Cells)
      ensures cm == bios && mc.mm == bios.mm && mc.c.m == bios.mm.m && fresh(mc) && fresh(mc.c)
    {
      cm := bios;
      mc := new M.MultiCursor(bios.mm);
    }

    /** multimap_cursor_search with MAP_SEARCH_GE */
    method SearchGE(key: nat) returns (found: bool, ghost n: nat)
      requires cm.Valid() && mc.mm == cm.mm && mc.c.m == cm.mm.m
      modifies mc, mc.c
      ensures KeyFrom(cm.cells, key, n) && (found <==> n < |cm.cells|) && (found ==> Stands(n))
    {
      found, n := mc.SearchGE(key);
      RowFrom(cm.cells, key, n);
    }

    method Cell(ghost a: nat) returns (b: BioWrapper)
      requires Stands(a) && a < |cm.cells|
      ensures b == cm.cells[a]
    {
      var key;
      key, b := mc.KeyVal(a);
      assert Row(cm.cells)[a] == T.Item(cm.cells[a].w.pos, cm.cells[a]);
    }

    method Next(ghost a: nat) returns (data: bool)
      requires Stands(a) && a < |cm.cells|
      modifies mc, mc.c
      ensures Stands(a + 1) && (data <==> a + 1 < |cm.cells|)
    {
      assert |Row(cm.cells)| == |cm.cells|;
      data := mc.Next(a);
    }

    /** multimap_cursor_del and multimap_cursor_is_data */
    method Del(ghost a: nat) returns (data: bool)
      requires Stands(a) && a < |cm.cells|
      modifies cm, mc, mc.c, cm.mm.m, cm.mm.m.r
      ensures Stands(a) && cm.cells == Without(old(cm.cells), a) && (data <==> a < |cm.cells|)
    {
      assert |Row(cm.cells)| == |cm.cells|;
      RowWithout(cm.cells, a);
      RemoveSorted(cm.cells, a);
      var ok := mc.Del(a);
      cm.cells := Without(cm.cells, a);
      data := mc.IsData(a);
    }
  }

  lemma CursorValid(cur: CellCursor, a: nat)
    requires cur.Stands(a)
    ensures cur.cm.Valid() && a <= |cur.cm.cells|
  {
  }
}
