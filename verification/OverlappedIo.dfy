/** The overlap map in memory: overlapped_check_and_insert and
    overlapped_delete_and_notify of module/overlapped_io.c, which look at a window
    of the map only, against the brute-force queue. */
module OverlappedIo {
  import opened Words
  import opened Disk
  import opened Overlapped
  import opened CellMap

  ghost predicate Bounded(cells: seq<BioWrapper>, max: nat) {
    forall i | 0 <= i < |cells| :: |cells[i].w.data| <= max
  }

  ghost predicate SameCells(a: seq<BioWrapper>, b: seq<BioWrapper>) {
    |a| == |b| && (forall i | 0 <= i < |a| :: a[i] in b) && (forall i | 0 <= i < |b| :: b[i] in a)
  }

  /** The cells that overlap a write. */
  function Hits(cells: seq<BioWrapper>, w: Write): set<BioWrapper> {
    set b | b in cells && Overlap(b.w, w)
  }

  /** Where the search window begins: max_sectors before the write. */
  function WindowStart(w: Write, max: nat): nat {
    if w.pos > max then w.pos - max else 0
  }

  /** max_sectors after an insertion: the longest write ever put into the map since it
      was empty. */
  function Raised(max: nat, b: Write): nat {
    if max < |b.data| then |b.data| else max
  }

  /** max_sectors after a deletion: it goes back to zero with the last write. */
  function Lowest(max: nat, cells: seq<BioWrapper>): nat {
    if cells == [] then 0 else max
  }

  // --------------------------------------------------- the window misses nothing

  /** Nor does it start too early: a write of the greatest length that begins in it,
      and not behind the request, reaches up to the request. */
  lemma WindowTight(a: Write, w: Write, max: nat)
    requires |a.data| == max && WindowStart(w, max) <= a.pos <= w.pos
    ensures w.pos <= a.pos + |a.data|
  {
  }

  /** A stored write that begins before the window is too short to reach in. */
  lemma BeforeWindow(a: Write, w: Write, max: nat)
    requires |a.data| <= max && a.pos < WindowStart(w, max)
    ensures !Overlap(a, w)
  {
  }

  lemma {:induction false} HitsMore(cells: seq<BioWrapper>, w: Write, k: nat)
    requires k < |cells| && Distinct(cells)
    ensures |Hits(cells[..k + 1], w)| == |Hits(cells[..k], w)| + if Overlap(cells[k].w, w) then 1 else 0
  {
    hide Overlap;
    assert cells[k] !in cells[..k];
    if Overlap(cells[k].w, w) {
      assert Hits(cells[..k + 1], w) == Hits(cells[..k], w) + {cells[k]};
    } else {
      assert Hits(cells[..k + 1], w) == Hits(cells[..k], w);
    }
  }

  /** The window from `lo` to `hi` holds all overlapping cells. */
  lemma {:induction false} WindowComplete(cells: seq<BioWrapper>, w: Write, lo: nat, hi: nat, max: nat)
    requires lo <= hi <= |cells| && Bounded(cells, max)
    requires forall i | 0 <= i < lo :: cells[i].w.pos < WindowStart(w, max)
    requires forall i | hi <= i < |cells| :: w.pos + |w.data| <= cells[i].w.pos
    ensures forall i | 0 <= i < |cells| && Overlap(cells[i].w, w) :: lo <= i < hi
    ensures Hits(cells[..lo], w) == {} && Hits(cells[..hi], w) == Hits(cells, w)
  {
    forall i | 0 <= i < lo ensures !Overlap(cells[i].w, w) {
      BeforeWindow(cells[i].w, w, max);
    }
    assert forall i | hi <= i < |cells| :: !Overlap(cells[i].w, w);
  }

  /** Counting over the map is counting over the queue of entries. */
  lemma {:induction false} CountIsCard(order: seq<BioWrapper>, q: seq<Entry>, w: Write)
    requires |q| == |order| && Distinct(order) && forall i | 0 <= i < |q| :: q[i].w == order[i].w
    ensures Count(q, w) == |Hits(order, w)|
    decreases |q|
  {
    if q == [] {
      assert Hits(order, w) == {};
    } else {
      var n := |q| - 1;
      CountIsCard(order[..n], q[..n], w);
      HitsMore(order, w, n);
      assert order[..n + 1] == order;
    }
  }

  lemma SameHits(a: seq<BioWrapper>, b: seq<BioWrapper>, w: Write)
    requires SameCells(a, b)
    ensures Hits(a, w) == Hits(b, w)
  {
  }

  lemma InsertBounded(cells: seq<BioWrapper>, b: BioWrapper, at: nat, max: nat)
    requires Bounded(cells, max) && at <= |cells|
    ensures Bounded(cells[..at] + [b] + cells[at..], if max < |b.w.data| then |b.w.data| else max)
  {
  }

  lemma InsertSame(cells: seq<BioWrapper>, order: seq<BioWrapper>, b: BioWrapper, at: nat)
    requires SameCells(cells, order) && at <= |cells| && b !in order && Distinct(order)
    ensures SameCells(cells[..at] + [b] + cells[at..], order + [b]) && Distinct(order + [b])
  {
    var r := cells[..at] + [b] + cells[at..];
    forall i | 0 <= i < |order + [b]| ensures (order + [b])[i] in r {
      if i < |order| {
        var j :| 0 <= j < |cells| && cells[j] == order[i];
        assert r[if j < at then j else j + 1] == order[i];
      } else {
        assert r[at] == b;
      }
    }
  }

  lemma RemoveBounded(cells: seq<BioWrapper>, k: nat, max: nat)
    requires Bounded(cells, max) && k < |cells|
    ensures Bounded(Without(cells, k), max)
  {
  }

  lemma RemoveSame(cells: seq<BioWrapper>, order: seq<BioWrapper>, j: nat, k: nat)
    requires SameCells(cells, order) && Distinct(cells) && Distinct(order) && j < |cells| && k < |order| && cells[j] == order[k]
    ensures SameCells(Without(cells, j), Without(order, k)) && Distinct(Without(order, k))
  {
    RemoveInto(cells, order, j, k);
    RemoveInto(order, cells, k, j);
  }

  lemma RemoveInto(a: seq<BioWrapper>, b: seq<BioWrapper>, j: nat, k: nat)
    requires SameCells(a, b) && Distinct(a) && j < |a| && k < |b| && a[j] == b[k]
    ensures forall i | 0 <= i < |a| - 1 :: Without(a, j)[i] in Without(b, k)
  {
    forall i | 0 <= i < |a| - 1 ensures Without(a, j)[i] in Without(b, k) {
      var c := Without(a, j)[i];
      var n :| 0 <= n < |b| && b[n] == c;
      assert n != k;
      assert Without(b, k)[if n < k then n else n - 1] == c;
    }
  }

  /** What counting down makes of a wrapper that held `n`. */
  function Lowered(b: Write, c: BioWrapper, n: nat): nat {
    if Overlap(b, c.w) && n > 0 then n - 1 else n
  }

  method OneDown(c: BioWrapper, b: Write) returns (zero: bool)
    requires Overlap(b, c.w) ==> c.nOverlapped > 0
    modifies c
    ensures c.nOverlapped == Lowered(b, c, old(c.nOverlapped)) && c.delayed == old(c.delayed)
    ensures c.overwritten == old(c.overwritten) && zero == (Overlap(b, c.w) && c.nOverlapped == 0)
  {
    zero := false;
    if Overlap(b, c.w) {
      c.nOverlapped := c.nOverlapped - 1;
      zero := c.nOverlapped == 0;
    }
  }

  lemma OnlyOnce(cells: seq<BioWrapper>, k: nat)
    requires Distinct(cells) && k < |cells|
    ensures cells[k] !in cells[..k]
    ensures forall i | 0 <= i < |cells| && i != k :: cells[i] != cells[k]
  {
  }

  lemma DistinctMore(cells: seq<BioWrapper>, c: BioWrapper)
    requires Distinct(cells) && c !in cells
    ensures Distinct(cells + [c])
  {
  }

  /** What the wrappers held before. */
  datatype Was = Was(n: nat, delayed: bool)

  function Snapshot(cells: seq<BioWrapper>): (s: seq<Was>)
    reads cells
    ensures |s| == |cells|
  {
    seq(|cells|, i requires 0 <= i < |cells| reads cells => Was(cells[i].nOverlapped, cells[i].delayed))
  }

  /** The cells from `lo` to `hi` are counted down, and the ones that came to zero are
      on the list. */
  ghost predicate DownTo(cells: seq<BioWrapper>, was: seq<Was>, w: Write, lo: nat, hi: nat, submit: seq<BioWrapper>)
    reads cells
  {
    && lo <= hi <= |cells| == |was|
    && (forall i | 0 <= i < |cells| ::
          cells[i].nOverlapped == (if lo <= i < hi then Lowered(w, cells[i], was[i].n) else was[i].n))
    && (forall i | 0 <= i < |cells| :: cells[i].delayed == was[i].delayed)
    && Distinct(submit) && (forall i | 0 <= i < |submit| :: submit[i] in cells[..hi])
    && (forall i | 0 <= i < |cells| ::
          cells[i] in submit <==> lo <= i < hi && Overlap(w, cells[i].w) && cells[i].nOverlapped == 0)
  }

  /** The body of the counting-down loop. */
  method DownStep(c: BioWrapper, w: Write, submit: seq<BioWrapper>, ghost cells: seq<BioWrapper>, ghost was: seq<Was>, ghost lo: nat, ghost hi: nat)
    returns (submit2: seq<BioWrapper>)
    requires Distinct(cells) && DownTo(cells, was, w, lo, hi, submit) && hi < |cells| && c == cells[hi]
    requires Overlap(w, c.w) ==> was[hi].n > 0
    modifies c
    ensures DownTo(cells, was, w, lo, hi + 1, submit2)
  {
    OnlyOnce(cells, hi);
    hide Overlap, Distinct;
    assert cells[..hi + 1] == cells[..hi] + [c];
    var zero := OneDown(c, w);
    submit2 := submit;
    if zero {
      DistinctMore(submit, c);
      submit2 := submit + [c];
    }
  }

  method LowerStep(cur: CellCursor, w: Write, submit: seq<BioWrapper>, ghost was: seq<Was>, ghost lo: nat, ghost hi: nat)
    returns (stop: bool, submit2: seq<BioWrapper>, more: bool)
    requires cur.Stands(hi) && hi < |cur.cm.cells| && Distinct(cur.cm.cells) && DownTo(cur.cm.cells, was, w, lo, hi, submit)
    requires Counted(cur.cm.cells, was, w)
    modifies cur.mc, cur.mc.c, cur.cm.cells[hi]
    ensures stop <==> w.pos + |w.data| <= cur.cm.cells[hi].w.pos
    ensures stop ==> submit2 == submit && DownTo(cur.cm.cells, was, w, lo, hi, submit)
    ensures !stop ==> DownTo(cur.cm.cells, was, w, lo, hi + 1, submit2) && cur.Stands(hi + 1) && (more <==> hi + 1 < |cur.cm.cells|)
  {
    hide Overlap, Sorted, Distinct, DownTo, Cells.Valid, CellCursor.Stands;
    var c := cur.Cell(hi);
    stop, submit2, more := c.w.pos >= w.pos + |w.data|, submit, true;
    if !stop {
      submit2 := DownStep(c, w, submit, cur.cm.cells, was, lo, hi);
      more := cur.Next(hi);
    }
  }

  lemma DownStart(cells: seq<BioWrapper>, w: Write, lo: nat)
    requires lo <= |cells|
    ensures DownTo(cells, Snapshot(cells), w, lo, lo, [])
  {
  }

  /** Every cell that overlaps the write has counted it. */
  ghost predicate Counted(cells: seq<BioWrapper>, was: seq<Was>, w: Write) {
    |was| == |cells| && forall i | 0 <= i < |cells| && Overlap(w, cells[i].w) :: was[i].n > 0
  }

  /** The counting-down loop, from cell `lo` on. */
  method LowerFrom(cur: CellCursor, w: Write, found: bool, ghost was: seq<Was>, ghost lo: nat)
    returns (submit: seq<BioWrapper>, ghost hi: nat)
    requires cur.cm.Valid() && Distinct(cur.cm.cells) && Counted(cur.cm.cells, was, w) && DownTo(cur.cm.cells, was, w, lo, lo, [])
    requires lo <= |cur.cm.cells| && (found ==> cur.Stands(lo)) && (found <==> lo < |cur.cm.cells|)
    modifies cur.mc, cur.mc.c, cur.cm.cells
    ensures DownTo(cur.cm.cells, was, w, lo, hi, submit) && lo <= hi <= |cur.cm.cells|
    ensures hi < |cur.cm.cells| ==> w.pos + |w.data| <= cur.cm.cells[hi].w.pos
  {
    hide Overlap, Distinct, Sorted, Counted, DownTo, Cells.Valid, CellCursor.Stands;
    var more := found;
    hi, submit := lo, [];
    while more
      invariant lo <= hi <= |cur.cm.cells| && (more ==> cur.Stands(hi)) && (more <==> hi < |cur.cm.cells|)
      invariant DownTo(cur.cm.cells, was, w, lo, hi, submit)
      decreases |cur.cm.cells| - hi
    {
      var stop;
      stop, submit, more := LowerStep(cur, w, submit, was, lo, hi);
      if stop {
        break;
      }
      hi := hi + 1;
    }
  }

  /** The counting-down loop: from the window's start while the key is below the end of
      the write. The wrappers that come to zero are put on the list to be submitted. */
  method LowerWindow(data: Cells, w: Write, start: nat, ghost was: seq<Was>)
    returns (submit: seq<BioWrapper>, ghost lo: nat, ghost hi: nat)
    requires data.Valid() && was == Snapshot(data.cells) && Counted(data.cells, was, w)
    modifies data.cells
    ensures KeyFrom(data.cells, start, lo) && DownTo(data.cells, was, w, lo, hi, submit) && lo <= hi <= |data.cells|
    ensures hi < |data.cells| ==> w.pos + |w.data| <= data.cells[hi].w.pos
  {
    InOrder(data);
    hide Overlap, Distinct, Sorted, Snapshot, Counted, Cells.Valid, CellCursor.Stands;
    var cur := new CellCursor(data);
    var found;
    found, lo := cur.SearchGE(start);
    DownStart(data.cells, w, lo);
    hide DownTo, KeyFrom;
    submit, hi := LowerFrom(cur, w, found, was, lo);
  }

  /** The body of the counting loop: past the write's end, or one cell on. */
  method CountStep(cur: CellCursor, w: Write, ghost a: nat) returns (stop: bool, hit: bool, more: bool)
    requires cur.Stands(a) && a < |cur.cm.cells|
    modifies cur.mc, cur.mc.c
    ensures stop <==> w.pos + |w.data| <= cur.cm.cells[a].w.pos
    ensures !stop ==> hit == Overlap(w, cur.cm.cells[a].w) && cur.Stands(a + 1) && (more <==> a + 1 < |cur.cm.cells|)
  {
    hide Overlap, Sorted, Distinct, Cells.Valid, CellCursor.Stands;
    var c := cur.Cell(a);
    stop, hit, more := c.w.pos >= w.pos + |w.data|, Overlap(w, c.w), true;
    if !stop {
      more := cur.Next(a);
    }
  }

  /** The counting loop, from cell `lo` on. */
  method CountFrom(cur: CellCursor, w: Write, found: bool, ghost lo: nat) returns (n: nat, ghost hi: nat)
    requires cur.cm.Valid() && Distinct(cur.cm.cells) && lo <= |cur.cm.cells| && HitsTo(cur.cm.cells, w, lo) == 0
    requires (found ==> cur.Stands(lo)) && (found <==> lo < |cur.cm.cells|)
    modifies cur.mc, cur.mc.c
    ensures lo <= hi <= |cur.cm.cells| && n == HitsTo(cur.cm.cells, w, hi)
    ensures hi < |cur.cm.cells| ==> w.pos + |w.data| <= cur.cm.cells[hi].w.pos
  {
    hide Overlap, Sorted, Distinct, HitsTo, Cells.Valid, CellCursor.Stands;
    var more := found;
    n, hi := 0, lo;
    while more
      invariant lo <= hi <= |cur.cm.cells| && n == HitsTo(cur.cm.cells, w, hi)
      invariant (more ==> cur.Stands(hi)) && (more <==> hi < |cur.cm.cells|)
      decreases |cur.cm.cells| - hi
    {
      var stop, hit;
      stop, hit, more := CountStep(cur, w, hi);
      if stop {
        break;
      }
      OneHit(cur.cm.cells, w, hi);
      if hit {
        n := n + 1;
      }
      hi := hi + 1;
    }
  }

  /** The counting loop: from the window's start while the key is below the end of the
      write. */
  method CountOverlapped(data: Cells, w: Write, max: nat) returns (n: nat)
    requires data.Valid() && Bounded(data.cells, max)
    ensures n == |Hits(data.cells, w)|
  {
    InOrder(data);
    hide Overlap, Sorted, Distinct, Bounded, HitsTo, Hits, Cells.Valid, CellCursor.Stands;
    var cur := new CellCursor(data);
    var found;
    ghost var lo, hi;
    found, lo := cur.SearchGE(WindowStart(w, max));
    BeforeHits(data.cells, w, lo, max);
    n, hi := CountFrom(cur, w, found, lo);
    AllHits(data.cells, w, lo, hi, max);
  }

  class OverlappedData {
    const data: Cells
    var maxSectors: nat
    ghost var order: seq<BioWrapper>

    ghost predicate Valid()
      reads this, data, data.mm.m, data.mm.m.r
    {
      && data.Valid() && Bounded(data.cells, maxSectors)
      && Distinct(order) && SameCells(data.cells, order)
    }

    /** The abstract queue: the wrappers in the order of insertion. */
    ghost function Queue(): (q: seq<Entry>)
      reads this, order
      ensures |q| == |order|
    {
      seq(|order|, i requires 0 <= i < |order| reads this, order =>
        Entry(order[i].id, order[i].w, order[i].nOverlapped, order[i].delayed))
    }

    constructor ()
      ensures Valid() && Queue() == []
      ensures fresh(data) && fresh(data.mm) && fresh(data.mm.m) && fresh(data.mm.m.r)
    {
      data := new Cells();
      maxSectors, order := 0, [];
    }

    /** multimap_add and the new maximum */
    method Put(at: nat, b: BioWrapper)
      requires Valid() && data.Free(at) && b !in order && b !in data.cells
      modifies this, data, data.mm.m, data.mm.m.r
      ensures Valid() && order == old(order) + [b] && maxSectors == Raised(old(maxSectors), b.w)
    {
      ghost var cells := data.cells;
      hide Sorted, Distinct, Bounded, SameCells, Cells.Valid;
      ghost var k := data.Add(at, b);
      InsertBounded(cells, b, k, maxSectors);
      InsertSame(cells, order, b, k);
      maxSectors := if maxSectors < |b.w.data| then |b.w.data| else maxSectors;
      order := order + [b];
    }

    /** overlapped_check_and_insert: it is the brute-force insertion. */
    method CheckAndInsert(at: nat, b: BioWrapper)
      requires Valid() && data.Free(at) && b !in order && b !in data.cells && !b.delayed
      modifies this, b, data, data.mm.m, data.mm.m.r
      ensures Valid() && order == old(order) + [b]
      ensures Queue() == Insert(old(Queue()), b.id, b.w) && maxSectors == Raised(old(maxSectors), b.w)
    {
      ghost var q := Queue();
      hide Hits, Overlap, Sorted, Distinct, Bounded, SameCells, Count, Cells.Valid;
      var n := CountOverlapped(data, b.w, maxSectors);
      SameHits(data.cells, order, b.w);
      CountIsCard(order, q, b.w);
      b.nOverlapped := n;
      if n > 0 {
        b.delayed := true;
      }
      Put(at, b);
      assert forall i | 0 <= i < |q| :: Queue()[i] == q[i];
    }

    /** Counting down over the whole map, by way of the window. */
    method CountDown(b: BioWrapper, max: nat) returns (submit: seq<BioWrapper>)
      requires data.Valid() && Bounded(data.cells, max)
      requires forall i | 0 <= i < |data.cells| && Overlap(b.w, data.cells[i].w) :: data.cells[i].nOverlapped > 0
      modifies data.cells
      ensures forall c | c in data.cells :: c.nOverlapped == Lowered(b.w, c, old(c.nOverlapped)) && c.delayed == old(c.delayed)
      ensures Distinct(submit) && forall i | 0 <= i < |submit| :: submit[i] in data.cells
      ensures forall c | c in data.cells :: c in submit <==> Overlap(b.w, c.w) && c.nOverlapped == 0
    {
      InOrder(data);
      hide Sorted, SameCells, Bounded, Overlap, Distinct, Cells.Valid;
      ghost var lo, hi;
      ghost var was := Snapshot(data.cells);
      assert Counted(data.cells, was, b.w);
      submit, lo, hi := LowerWindow(data, b.w, WindowStart(b.w, max), was);
      KeysFrom(data.cells, hi, b.w.pos + |b.w.data|);
      OutsideWindow(data.cells, b.w, lo, hi, max);
    }

    /** multimap_del */
    method TakeOut(b: BioWrapper, ghost k: nat)
      requires Valid() && k < |order| && order[k] == b
      modifies this, data, data.mm.m, data.mm.m.r
      ensures Valid() && order == Without(old(order), k) && b !in data.cells && maxSectors == old(maxSectors)
    {
      ghost var cells := data.cells;
      InCells(cells, order, k);
      InOrder(data);
      hide Sorted, Distinct, SameCells, Bounded, Cells.Valid;
      ghost var j := data.Del(b);
      RemoveBounded(cells, j, maxSectors);
      RemoveSame(cells, order, j, k);
      order := Without(order, k);
    }

    /** The maximum goes back to zero with the last one. */
    method ResetMax()
      requires Valid()
      modifies this`maxSectors
      ensures Valid() && maxSectors == Lowest(old(maxSectors), data.cells)
    {
      hide Sorted, Distinct, SameCells, Bounded, Cells.Valid;
      EmptyIsBounded(data.cells);
      var empty := data.IsEmpty();
      if empty {
        maxSectors := 0;
      }
    }

    /** Takes the wrapper out of the map. All wrappers it overlaps have counted it. */
    method Detach(b: BioWrapper, ghost k: nat)
      requires Valid() && k < |order| && order[k] == b && b.nOverlapped == 0 && CountsOk(Queue())
      modifies this, data, data.mm.m, data.mm.m.r
      ensures Valid() && order == Without(old(order), k) && b !in data.cells && Bounded(data.cells, old(maxSectors))
      ensures maxSectors == Lowest(old(maxSectors), data.cells)
      ensures Queue() == Without(old(Queue()), k)
      ensures forall i | 0 <= i < |data.cells| && Overlap(b.w, data.cells[i].w) :: data.cells[i].nOverlapped > 0
    {
      ghost var q, was := Queue(), order;
      hide Sorted, Distinct, SameCells, CountsOk, Overlap, Bounded, Cells.Valid;
      TakeOut(b, k);
      ResetMax();
      assert Queue() == Without(q, k);
      forall i | 0 <= i < |data.cells| && Overlap(b.w, data.cells[i].w) ensures data.cells[i].nOverlapped > 0 {
        var m := IsCounted(was, data.cells, q, k, i);
      }
    }

    /** overlapped_delete_and_notify: it is the brute-force deletion, and the list it
        returns holds exactly the wrappers it released. */
    method DeleteAndNotify(b: BioWrapper, ghost k: nat) returns (submit: seq<BioWrapper>)
      requires Valid() && k < |order| && order[k] == b && b.nOverlapped == 0 && CountsOk(Queue())
      modifies this, order, data, data.mm.m, data.mm.m.r
      ensures Valid() && order == Without(old(order), k)
      ensures Queue() == Delete(old(Queue()), k) && CountsOk(Queue()) && maxSectors == Lowest(old(maxSectors), data.cells)
      ensures Distinct(submit) && forall i | 0 <= i < |submit| :: submit[i] in order
      ensures forall i | 0 <= i < |order| :: order[i] in submit <==> Released(old(Queue()), k, i)
    {
      hide Sorted, Distinct, Bounded, SameCells, CountsOk, Overlap, Delete, Released, Lower, Cells.Valid;
      ghost var q := Queue();
      var max := maxSectors;
      Detach(b, k);
      CellsOf(data.cells, order);
      ghost var rest := Queue();
      assert forall i | 0 <= i < |order| :: order[i] in old(order);
      submit := CountDown(b, max);
      ghost var now := Queue();
      forall i | 0 <= i < |order| ensures CountedDown(q[k].w, rest[i], now[i]) {
        assert order[i] in data.cells;
      }
      LoweredQueue(q, now, k);
      DeleteKeeps(q, k);
      forall i | 0 <= i < |order| ensures order[i] in submit <==> Released(q, k, i) {
        ReleasedIs(q, k, i);
      }
    }
  }

  lemma InCells(cells: seq<BioWrapper>, order: seq<BioWrapper>, k: nat)
    requires SameCells(cells, order) && k < |order|
    ensures order[k] in cells
  {
  }

  /** How many of the first `n` cells overlap. */
  function HitsTo(cells: seq<BioWrapper>, w: Write, n: nat): nat
    requires n <= |cells|
  {
    |Hits(cells[..n], w)|
  }

  lemma OneHit(cells: seq<BioWrapper>, w: Write, n: nat)
    requires Distinct(cells) && n < |cells|
    ensures HitsTo(cells, w, n + 1) == HitsTo(cells, w, n) + if Overlap(w, cells[n].w) then 1 else 0
  {
    HitsMore(cells, w, n);
    OverlapSym(w, cells[n].w);
  }

  lemma BeforeHits(cells: seq<BioWrapper>, w: Write, lo: nat, max: nat)
    requires Bounded(cells, max) && KeyFrom(cells, WindowStart(w, max), lo)
    ensures HitsTo(cells, w, lo) == 0
  {
    WindowComplete(cells[..lo], w, lo, lo, max);
    assert cells[..lo][..lo] == cells[..lo];
  }

  lemma AllHits(cells: seq<BioWrapper>, w: Write, lo: nat, hi: nat, max: nat)
    requires Sorted(cells) && Bounded(cells, max) && KeyFrom(cells, WindowStart(w, max), lo) && lo <= hi <= |cells|
    requires hi < |cells| ==> w.pos + |w.data| <= cells[hi].w.pos
    ensures HitsTo(cells, w, hi) == |Hits(cells, w)|
  {
    KeysFrom(cells, hi, w.pos + |w.data|);
    WindowComplete(cells, w, lo, hi, max);
  }

  /** One step down for an entry that overlaps. */
  predicate CountedDown(w: Write, e: Entry, f: Entry) {
    f.id == e.id && f.w == e.w && f.delayed == e.delayed && f.n == if Overlap(w, e.w) && e.n > 0 then e.n - 1 else e.n
  }

  lemma CellsOf(cells: seq<BioWrapper>, order: seq<BioWrapper>)
    requires SameCells(cells, order)
    ensures forall i | 0 <= i < |order| :: order[i] in cells
    ensures forall i | 0 <= i < |cells| :: cells[i] in order
  {
  }

  lemma ReleasedIs(q: seq<Entry>, k: nat, i: nat)
    requires k < |q| && i < |q| - 1
    ensures Released(q, k, i) <==> Overlap(q[k].w, Delete(q, k)[i].w) && Delete(q, k)[i].n == 0
  {
  }

  /** Counting all overlapping entries down by one is the deletion of the queue. */
  lemma LoweredQueue(q: seq<Entry>, now: seq<Entry>, k: nat)
    requires k < |q| && |now| == |q| - 1 && CountsOk(q) && q[k].n == 0
    requires forall i | 0 <= i < |now| :: CountedDown(q[k].w, Without(q, k)[i], now[i])
    ensures now == Delete(q, k)
  {
    hide CountsOk, Overlap;
    forall i | 0 <= i < |now| ensures now[i] == Delete(q, k)[i] {
      var j := if i < k then i else i + 1;
      assert Without(q, k)[i] == q[j] && CountedDown(q[k].w, Without(q, k)[i], now[i]);
      if Overlap(q[k].w, q[j].w) {
        NoUnderflow(q, k, j);
      }
    }
  }

  lemma EmptyIsBounded(cells: seq<BioWrapper>)
    ensures cells == [] ==> Bounded(cells, 0)
  {
  }

  /** A wrapper that overlaps the leaving one has counted it. */
  lemma IsCounted(was: seq<BioWrapper>, cells: seq<BioWrapper>, q: seq<Entry>, k: nat, i: nat) returns (j: nat)
    requires k < |was| == |q| && CountsOk(q) && q[k].n == 0 && (forall i | 0 <= i < |q| :: q[i].w == was[i].w)
    requires SameCells(cells, Without(was, k)) && i < |cells| && Overlap(was[k].w, cells[i].w)
    ensures j < |was| && was[j] == cells[i] && q[j].n > 0
  {
    hide CountsOk, Overlap;
    var m :| 0 <= m < |Without(was, k)| && Without(was, k)[m] == cells[i];
    j := if m < k then m else m + 1;
    assert q[j].w == was[j].w == cells[i].w;
    NoUnderflow(q, k, j);
  }

  lemma KeysFrom(cells: seq<BioWrapper>, cur: nat, key: nat)
    requires Sorted(cells) && (cur < |cells| ==> key <= cells[cur].w.pos)
    ensures forall i | cur <= i < |cells| :: key <= cells[i].w.pos
  {
  }

  lemma OutsideWindow(cells: seq<BioWrapper>, w: Write, lo: nat, hi: nat, max: nat)
    requires lo <= hi <= |cells| && Bounded(cells, max)
    requires forall i | 0 <= i < lo :: cells[i].w.pos < WindowStart(w, max)
    requires forall i | hi <= i < |cells| :: w.pos + |w.data| <= cells[i].w.pos
    ensures forall i | 0 <= i < |cells| && Overlap(w, cells[i].w) :: lo <= i < hi
  {
    WindowComplete(cells, w, lo, hi, max);
    forall i | 0 <= i < |cells| ensures Overlap(w, cells[i].w) == Overlap(cells[i].w, w) {
      OverlapSym(w, cells[i].w);
    }
  }
}
