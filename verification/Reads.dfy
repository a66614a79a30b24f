/** A read, end to end: splitting and filling the read bio from the pending data
    gives what the pipeline promises a reader. */
module Reads {
  import opened Words
  import opened Disk
  import opened LogRecord
  import opened Logpack
  import opened WritePack
  import opened LogDevice
  import opened RoundTrip
  import opened Recovery
  import opened Restart
  import opened LogSide
  import opened Promises
  import opened DataSide
  import opened Pipeline
  import opened Crash
  import opened CellMap
  import opened OverlappedIo
  import opened Pending
  import opened PendingIo

  /** The pending map in memory holds the pending writes of the pipeline, each once;
      the id of a wrapper is the place of its write in the log. */
  ghost predicate Holds(e: Env, d: DataSt, cells: seq<BioWrapper>) {
    && (forall i, j | 0 <= i < j < |cells| :: cells[i].id != cells[j].id)
    && (forall i | 0 <= i < |cells| ::
          cells[i].id in d.pending && cells[i].id < e.inserted <= |e.ls| && cells[i].w == e.ls[cells[i].id].w)
    && (forall k | k in d.pending :: exists i :: 0 <= i < |cells| && cells[i].id == k)
  }

  /** The list pending_check_and_copy works through. */
  ghost predicate Listed(cells: seq<BioWrapper>, read: Write, list: seq<BioWrapper>) {
    ByLsid(list) && multiset(list) == multiset(Overlapping(cells, read))
  }

  lemma ListedIn(cells: seq<BioWrapper>, read: Write, list: seq<BioWrapper>, j: nat)
    requires Listed(cells, read, list) && j < |list|
    ensures list[j] in cells
  {
    assert list[j] in multiset(list);
    assert list[j] in Overlapping(cells, read);
    OverlappingAre(cells, read, list[j]);
  }

  /** A pending write that covers a sector of the read is in the list. */
  lemma IsListed(e: Env, d: DataSt, cells: seq<BioWrapper>, read: Write, list: seq<BioWrapper>, k: nat, x: nat) returns (i: nat)
    requires Holds(e, d, cells) && Listed(cells, read, list) && k in d.pending
    requires k < |e.ls| && Covers(e.ls[k].w, x) && Covers(read, x)
    ensures i < |list| && list[i].id == k && list[i].w == e.ls[k].w
  {
    var j :| 0 <= j < |cells| && cells[j].id == k;
    OverlappingAre(cells, read, cells[j]);
    assert cells[j] in multiset(Overlapping(cells, read));
    assert cells[j] in multiset(list);
    i :| 0 <= i < |list| && list[i] == cells[j];
  }

  lemma LastIsNewest(e: Env, d: DataSt, cells: seq<BioWrapper>, read: Write, list: seq<BioWrapper>, x: nat, j: nat)
    requires Holds(e, d, cells) && Listed(cells, read, list) && e.inserted <= |e.ls|
    requires Covers(read, x) && LastWriter(WritesOfList(list), x, j)
    ensures Newest(e.ls, d.pending, e.inserted, x) == list[j].id && list[j].id < |e.ls| && list[j].w == e.ls[list[j].id].w
  {
    ListedIn(cells, read, list, j);
    var n := Newest(e.ls, d.pending, e.inserted, x);
    assert Covers(WritesOfList(list)[j], x);
    if n > list[j].id {
      var i := IsListed(e, d, cells, read, list, n, x);
      assert WritesOfList(list)[i] == list[i].w;
    }
  }

  lemma NoneIsNewest(e: Env, d: DataSt, cells: seq<BioWrapper>, read: Write, list: seq<BioWrapper>, x: nat)
    requires Holds(e, d, cells) && Listed(cells, read, list) && e.inserted <= |e.ls|
    requires Covers(read, x) && NoWriter(WritesOfList(list), x)
    ensures Newest(e.ls, d.pending, e.inserted, x) < 0
  {
    NoneListed(list, x);
    var n := Newest(e.ls, d.pending, e.inserted, x);
    if n >= 0 {
      var i := IsListed(e, d, cells, read, list, n, x);
    }
  }

  lemma NoneListed(list: seq<BioWrapper>, x: nat)
    requires NoWriter(WritesOfList(list), x)
    ensures forall i | 0 <= i < |list| :: !Covers(list[i].w, x)
  {
    hide Covers;
    forall i | 0 <= i < |list| ensures !Covers(list[i].w, x) {
      assert WritesOfList(list)[i] == list[i].w;
    }
  }

  /** What a reader is shown of a sector, by the list of its pending writes. */
  lemma ListedView(d0: Image, e: Env, d: DataSt, cells: seq<BioWrapper>, read: Write, list: seq<BioWrapper>, x: nat, j: int)
    requires x < |d0| && e.inserted <= |e.ls| && Holds(e, d, cells) && Listed(cells, read, list) && Covers(read, x) && j < |list|
    requires if j < 0 then NoWriter(WritesOfList(list), x) else LastWriter(WritesOfList(list), x, j)
    ensures View(d0, e, d, x)
         == if j < 0 then After(d0, e.ls, d.hits)[x] else list[j].w.data[x - list[j].w.pos]
  {
    hide Holds, Listed, After, LastWriter, NoWriter;
    if j < 0 {
      NoneIsNewest(e, d, cells, read, list, x);
    } else {
      LastIsNewest(e, d, cells, read, list, x, j);
    }
  }

  lemma InList(ws: seq<Write>, x: nat, j: int)
    requires j >= 0 ==> LastWriter(ws, x, j)
    ensures j < |ws|
  {
  }

  lemma ListIsLonger(cells: seq<BioWrapper>, read: Write, list: seq<BioWrapper>)
    requires Listed(cells, read, list) && LongerThanZero(cells)
    ensures forall i | 0 <= i < |WritesOfList(list)| :: |WritesOfList(list)[i].data| > 0
  {
    ListLonger(cells, read, list);
  }

  // ------------------------------------------- the map through a whole run

  /** The pending map and, by id, the writes marked as overwritten. */
  datatype PMap = PMap(cells: seq<BioWrapper>, over: set<nat>)

  /** A write that is not through yet is marked as overwritten exactly if it has
      left the pending data. */
  ghost predicate Marks(e: Env, d: DataSt, over: set<nat>) {
    forall k: nat | d.gone <= k < e.inserted :: k in over <==> k !in d.pending
  }

  ghost predicate MapFits(e: Env, d: DataSt, m: PMap) {
    Holds(e, d, m.cells) && Marks(e, d, m.over)
  }

  /** The ids of the entries that the write drops. */
  function DroppedIds(cells: seq<BioWrapper>, b: BioWrapper): (r: set<nat>)
    ensures forall k :: k in r <==> exists i :: 0 <= i < |cells| && cells[i].id == k && CoveredBy(cells[i].w, b.w)
  {
    set i | 0 <= i < |cells| && CoveredBy(cells[i].w, b.w) :: cells[i].id
  }

  /** What PendingData.InsertAndDeleteOverwritten does when write `k` comes. */
  ghost predicate MapInserts(e: Env, k: nat, m: PMap, m2: PMap)
    requires k < |e.ls|
  {
    exists i :: 0 <= i < |m2.cells| && IsInsert(e, k, m, m2, m2.cells[i])
  }

  ghost predicate IsInsert(e: Env, k: nat, m: PMap, m2: PMap, b: BioWrapper)
    requires k < |e.ls|
  {
    && b.id == k && b.w == e.ls[k].w && b !in m.cells
    && AfterInsert(m.cells, m2.cells, b) && m2.over == m.over + DroppedIds(m.cells, b)
  }

  /** What PendingData.Finish does when write `k` is through. */
  ghost predicate MapFinishes(k: nat, m: PMap, m2: PMap) {
    m2.over == m.over
    && if k in m.over then m2 == m else exists i :: 0 <= i < |m.cells| && IsDelete(k, m, m2, m.cells[i])
  }

  ghost predicate IsDelete(k: nat, m: PMap, m2: PMap, b: BioWrapper) {
    b.id == k && AfterDelete(m.cells, m2.cells, b)
  }

  lemma EmptyMap(e: Env)
    requires e.inserted == 0
    ensures MapFits(e, InitData(), PMap([], {}))
  {
  }

  lemma CellOf(e: Env, d: DataSt, cells: seq<BioWrapper>, k: nat) returns (i: nat)
    requires Holds(e, d, cells) && k in d.pending
    ensures i < |cells| && cells[i].id == k
  {
    i :| 0 <= i < |cells| && cells[i].id == k;
  }

  /** Different wrappers in the map have different ids. */
  lemma TwoIds(e: Env, d: DataSt, cells: seq<BioWrapper>, b: BioWrapper, c: BioWrapper)
    requires Holds(e, d, cells) && b in cells && c in cells && b != c
    ensures b.id != c.id
  {
    var i, j :| 0 <= i < |cells| && 0 <= j < |cells| && cells[i] == b && cells[j] == c;
  }

  lemma InCells(e: Env, d: DataSt, cells: seq<BioWrapper>, c: BioWrapper)
    requires Holds(e, d, cells) && c in cells
    ensures c.id in d.pending && c.id < e.inserted <= |e.ls| && c.w == e.ls[c.id].w
  {
    var i :| 0 <= i < |cells| && cells[i] == c;
  }

  /** Inserting into the map is inserting into the pending data. */
  lemma InsertHolds(e: Env, d: DataSt, cells: seq<BioWrapper>, after: seq<BioWrapper>, b: BioWrapper)
    requires Holds(e, d, cells) && e.inserted < |e.ls| && AfterInsert(cells, after, b)
    requires b.id == e.inserted && b.w == e.ls[e.inserted].w
    ensures Holds(e.(inserted := e.inserted + 1), PendInsert(e, d, e.inserted), after)
  {
    hide CoveredBy;
    var f, d2 := e.(inserted := e.inserted + 1), PendInsert(e, d, e.inserted);
    forall i | 0 <= i < |after|
      ensures after[i].id in d2.pending && after[i].id < f.inserted <= |f.ls| && after[i].w == f.ls[after[i].id].w
    {
      if after[i] != b {
        InCells(e, d, cells, after[i]);
      }
    }
    forall i, j | 0 <= i < j < |after| ensures after[i].id != after[j].id {
      DifferentIds(e, d, cells, after, b, i, j);
    }
    forall k | k in d2.pending ensures exists i :: 0 <= i < |after| && after[i].id == k {
      if k == e.inserted {
        var i :| 0 <= i < |after| && after[i] == b;
        assert after[i].id == k;
      } else {
        var j := CellOf(e, d, cells, k);
        assert cells[j] in after;
        var i :| 0 <= i < |after| && after[i] == cells[j];
        assert after[i].id == k;
      }
    }
  }

  lemma DifferentIds(e: Env, d: DataSt, cells: seq<BioWrapper>, after: seq<BioWrapper>, b: BioWrapper, i: nat, j: nat)
    requires Holds(e, d, cells) && AfterInsert(cells, after, b) && b.id == e.inserted && i < j < |after|
    ensures after[i].id != after[j].id
  {
    hide CoveredBy;
    assert after[i] != after[j];
    if after[i] != b {
      InCells(e, d, cells, after[i]);
    }
    if after[j] != b {
      InCells(e, d, cells, after[j]);
    }
    if after[i] != b && after[j] != b {
      TwoIds(e, d, cells, after[i], after[j]);
    }
  }

  /** The dropped entries are the ones that leave the pending data. */
  lemma InsertMarks(e: Env, d: DataSt, m: PMap, b: BioWrapper)
    requires MapFits(e, d, m) && e.inserted < |e.ls| && b.w == e.ls[e.inserted].w
    requires forall k | k in m.over :: k < e.inserted
    ensures Marks(e.(inserted := e.inserted + 1), PendInsert(e, d, e.inserted), m.over + DroppedIds(m.cells, b))
    ensures forall k | k in m.over + DroppedIds(m.cells, b) :: k < e.inserted
  {
    hide CoveredBy;
    var f, d2 := e.(inserted := e.inserted + 1), PendInsert(e, d, e.inserted);
    forall k | k in DroppedIds(m.cells, b) ensures k in d.pending && k < e.inserted && CoveredBy(e.ls[k].w, b.w) {
      var i :| 0 <= i < |m.cells| && m.cells[i].id == k && CoveredBy(m.cells[i].w, b.w);
    }
    forall k: nat | k in d.pending && k < |e.ls| && CoveredBy(e.ls[k].w, b.w) ensures k in DroppedIds(m.cells, b) {
      var i := CellOf(e, d, m.cells, k);
    }
    hide Holds, DroppedIds;
  }

  /** Deleting from the map is deleting from the pending data. */
  lemma DeleteHolds(e: Env, d: DataSt, cells: seq<BioWrapper>, after: seq<BioWrapper>, b: BioWrapper)
    requires Holds(e, d, cells) && b in cells && b.id == d.gone && AfterDelete(cells, after, b)
    ensures Holds(e, d.(gone := d.gone + 1, pending := d.pending - {d.gone}), after)
  {
    forall i | 0 <= i < |after|
      ensures after[i].id in d.pending && after[i].id != d.gone && after[i].id < e.inserted <= |e.ls|
      ensures after[i].w == e.ls[after[i].id].w
    {
      InCells(e, d, cells, after[i]);
      TwoIds(e, d, cells, after[i], b);
    }
    forall i, j | 0 <= i < j < |after| ensures after[i].id != after[j].id {
      TwoIds(e, d, cells, after[i], after[j]);
    }
    forall k | k in d.pending && k != d.gone ensures exists i :: 0 <= i < |after| && after[i].id == k {
      var j := CellOf(e, d, cells, k);
      assert cells[j] in after;
      var i :| 0 <= i < |after| && after[i] == cells[j];
      assert after[i].id == k;
    }
  }

  // ------------------------------------------------------------ every run

  /** A step of the pipeline and what it does to the map. */
  ghost predicate MapStep(s: St, p: PStep, m: PMap, m2: PMap) {
    if p.Log? && p.s.InsertPending? then
      s.l.inserted < |s.l.writes| && MapInserts(EnvOf(s.l), s.l.inserted, m, m2)
    else if p.Data? && p.t.PendDelete? then MapFinishes(s.d.gone, m, m2)
    else m2 == m
  }

  ghost predicate BothFollow(c: Setup, s: St, s2: St, m: PMap, m2: PMap, p: PStep) {
    Follows(c, s, s2, p) && MapStep(s, p, m, m2)
  }

  ghost predicate BothStep(c: Setup, s: St, s2: St, m: PMap, m2: PMap) {
    exists p :: BothFollow(c, s, s2, m, m2, p)
  }

  /** A run of the pipeline together with the contents of the map. */
  ghost predicate MapRun(c: Setup, base: u64, run: seq<St>, maps: seq<PMap>) {
    && run != [] && |maps| == |run| && run[0] == Start(base) && maps[0] == PMap([], {})
    && forall i | 0 < i < |run| :: BothStep(c, run[i - 1], run[i], maps[i - 1], maps[i])
  }

  /** All that is known of the map. */
  ghost predicate MapInv(s: St, m: PMap) {
    MapFits(EnvOf(s.l), s.d, m) && forall k | k in m.over :: k < s.l.inserted
  }

  lemma MapSame(s: St, s2: St, m: PMap)
    requires MapInv(s, m) && s.l.writes <= s2.l.writes && s2.l.inserted == s.l.inserted
    requires s2.d.pending == s.d.pending && s2.d.gone == s.d.gone
    ensures MapInv(s2, m)
  {
    assert forall k | 0 <= k < |s.l.writes| :: s2.l.writes[k] == s.l.writes[k];
  }

  lemma MapInsert(c: Setup, s: St, p: PStep, m: PMap, m2: PMap)
    requires MapInv(s, m) && Can(c, s, p) && p.Log? && p.s.InsertPending? && MapStep(s, p, m, m2)
    ensures MapInv(Do(c, s, p), m2)
  {
    var e := EnvOf(s.l);
    InsertMoves(c, s.prevWritten, s.l);
    hide Holds, Marks, AfterInsert, PendInsert, DroppedIds, Enabled, Next;
    var i :| 0 <= i < |m2.cells| && IsInsert(e, e.inserted, m, m2, m2.cells[i]);
    InsertHolds(e, s.d, m.cells, m2.cells, m2.cells[i]);
    InsertMarks(e, s.d, m, m2.cells[i]);
  }

  lemma MapFinish(c: Setup, s: St, p: PStep, m: PMap, m2: PMap)
    requires MapInv(s, m) && DInv(EnvOf(s.l), s.d) && Can(c, s, p) && p.Data? && p.t.PendDelete? && MapStep(s, p, m, m2)
    ensures MapInv(Do(c, s, p), m2)
  {
    GoneIsInserted(EnvOf(s.l), s.d);
    hide DInv, Holds, Marks, AfterDelete;
    FinishFits(EnvOf(s.l), s.d, m, m2);
    assert Do(c, s, p).d == Finished(s.d);
  }

  function Finished(d: DataSt): DataSt {
    d.(gone := d.gone + 1, pending := d.pending - {d.gone})
  }

  lemma FinishFits(e: Env, d: DataSt, m: PMap, m2: PMap)
    requires MapFits(e, d, m) && (forall k | k in m.over :: k < e.inserted) && d.gone < e.inserted && MapFinishes(d.gone, m, m2)
    ensures MapFits(e, Finished(d), m2) && forall k | k in m2.over :: k < e.inserted
  {
    var k := d.gone;
    hide Holds, AfterDelete;
    if k in m.over {
      assert k !in d.pending && d.pending - {k} == d.pending;
      HoldsLater(e, d, Finished(d), m.cells);
    } else {
      var i :| 0 <= i < |m.cells| && IsDelete(k, m, m2, m.cells[i]);
      DeleteHolds(e, d, m.cells, m2.cells, m.cells[i]);
    }
  }

  lemma HoldsLater(e: Env, d: DataSt, d2: DataSt, cells: seq<BioWrapper>)
    requires Holds(e, d, cells) && d2.pending == d.pending
    ensures Holds(e, d2, cells)
  {
  }

  lemma GoneIsInserted(e: Env, d: DataSt)
    requires DInv(e, d) && d.olDel == d.gone + 1
    ensures d.gone < e.inserted
  {
    hide MapOk, Flight, HitsOk, PendOk, Sending, Once;
  }

  lemma OtherDataStep(e: Env, d: DataSt, t: DStep)
    requires DEnabled(e, d, t) && !t.PendDelete?
    ensures DNext(e, d, t).pending == d.pending && DNext(e, d, t).gone == d.gone
  {
    hide ReleasedIds, Reached, Covers;
  }

  lemma MapOther(c: Setup, s: St, p: PStep, m: PMap)
    requires c.g.ring >= MAX_TOTAL_IO_SIZE && PInv(c, s) && MapInv(s, m) && Can(c, s, p)
    requires !(p.Log? && p.s.InsertPending?) && !(p.Data? && p.t.PendDelete?)
    ensures MapInv(Do(c, s, p), m)
  {
    PInvParts(c, s);
    hide PInv, MapInv, Inv, Shape, Promised, DInv, GcOk, SyncOk, RingOk, Enabled, DEnabled, Next, DNext;
    if p.Log? {
      StepGrows(c, s.prevWritten, s.l, p.s);
      InsertedSame(c, s.prevWritten, s.l, p.s);
    } else if p.Data? {
      OtherDataStep(EnvOf(s.l), s.d, p.t);
    }
    MapSame(s, Do(c, s, p), m);
  }

  /** In every state of every run the map holds exactly the pending writes. */
  lemma {:induction false} MapHolds(c: Setup, base: u64, run: seq<St>, maps: seq<PMap>, i: nat)
    requires c.g.ring >= MAX_TOTAL_IO_SIZE && MapRun(c, base, run, maps) && i < |run|
    ensures PInv(c, run[i]) && MapInv(run[i], maps[i])
    decreases i
  {
    hide PInv, MapInv, Can, Do, MapStep;
    if i == 0 {
      StartInv(c, base);
      StartMap(base);
    } else {
      MapHolds(c, base, run, maps, i - 1);
      assert BothStep(c, run[i - 1], run[i], maps[i - 1], maps[i]);
      var p :| BothFollow(c, run[i - 1], run[i], maps[i - 1], maps[i], p);
      PStepInv(c, run[i - 1], p);
      MapMoves(c, run[i - 1], p, maps[i - 1], maps[i]);
    }
  }

  lemma StartMap(base: u64)
    ensures MapInv(Start(base), PMap([], {}))
  {
    EmptyMap(EnvOf(Start(base).l));
  }

  lemma MapMoves(c: Setup, s: St, p: PStep, m: PMap, m2: PMap)
    requires c.g.ring >= MAX_TOTAL_IO_SIZE && PInv(c, s) && MapInv(s, m) && Can(c, s, p) && MapStep(s, p, m, m2)
    ensures MapInv(Do(c, s, p), m2)
  {
    PInvParts(c, s);
    hide PInv, MapInv, Can, Do, MapInserts, MapFinishes, DInv, Inv, Promised, GcOk, SyncOk, RingOk, Shape;
    if p.Log? && p.s.InsertPending? {
      MapInsert(c, s, p, m, m2);
    } else if p.Data? && p.t.PendDelete? {
      MapFinish(c, s, p, m, m2);
    } else {
      MapOther(c, s, p, m);
    }
  }

  /** Every logged write has data. */
  lemma PackLonger(g: Geometry, p: Pack, j: nat)
    requires PackOk(g, p) && NoDiscards(p) && j < |LoggedOf(g, p)|
    ensures |LoggedOf(g, p)[j].w.data| > 0
  {
    assert p.bios[j] in p.bios;
    assert ValidBio(p.bios[j]);
  }

  lemma {:induction false} LoggedLonger(g: Geometry, ps: seq<Pack>, k: nat)
    requires GoodPacks(g, ps) && k < |AllLogged(g, ps)|
    ensures |AllLogged(g, ps)[k].w.data| > 0
    decreases |ps|
  {
    hide PackOk, NoDiscards, LoggedOf, GoodPacks;
    assert ps != [];
    GoodTail(g, ps);
    LoggedAt(g, ps, k);
    hide AllLogged;
    var n := |LoggedOf(g, ps[0])|;
    if k < n {
      PackLonger(g, ps[0], k);
    } else {
      LoggedLonger(g, ps[1..], k - n);
    }
  }

  lemma CellsLonger(c: Setup, s: St, m: PMap)
    requires Shape(c, s.l) && MapInv(s, m)
    ensures LongerThanZero(m.cells)
  {
    ShapeFacts(c, s.l);
    hide Shape, GoodPacks, AllLogged, Chained, AllFit;
    forall i | 0 <= i < |m.cells| ensures |m.cells[i].w.data| > 0 {
      LoggedLonger(c.g, Packs(s.l), m.cells[i].id);
    }
  }

  lemma AllWritesFit(c: Setup, l: LogSt)
    requires Shape(c, l)
    ensures LoggedFit(l.writes, c.size)
  {
    ShapeFacts(c, l);
    hide Shape;
    FitsAll(c, l);
  }
}
