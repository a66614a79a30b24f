/** A read whose device I/O completes later than its look at the pending data, while
    the other tasks go on. */
module LaterReads {
  import opened Words
  import opened Disk
  import opened LogDevice
  import opened LogSide
  import opened Promises
  import opened DataSide
  import opened Pipeline
  import opened Crash
  import opened CellMap
  import opened OverlappedIo
  import opened Pending
  import opened PendingIo
  import opened Reads

  /** What only grows: the log, the writes inserted, and what reached the device. */
  ghost predicate Later(s: St, s2: St) {
    s.d.hits <= s2.d.hits && s.l.writes <= s2.l.writes && s.l.inserted <= s2.l.inserted
  }

  ghost predicate Older(e: Env, d: DataSt, f: Env, d2: DataSt) {
    d.hits <= d2.hits && e.ls <= f.ls && e.inserted <= f.inserted && e.inserted <= |e.ls|
  }

  lemma HitsGrow(e: Env, d: DataSt, t: DStep)
    requires DEnabled(e, d, t)
    ensures d.hits <= DNext(e, d, t).hits
  {
    hide ReleasedIds, Reached, Covers;
  }

  lemma LogLater(c: Setup, s: St, t: LStep)
    requires c.g.ring >= MAX_TOTAL_IO_SIZE && Inv(c, s.l) && Can(c, s, Log(t))
    ensures Later(s, Do(c, s, Log(t)))
  {
    hide Inv, Enabled, Next;
    StepGrows(c, s.prevWritten, s.l, t);
  }

  lemma DataLater(c: Setup, s: St, t: DStep)
    requires Can(c, s, Data(t))
    ensures Later(s, Do(c, s, Data(t)))
  {
    hide DEnabled, DNext;
    HitsGrow(EnvOf(s.l), s.d, t);
  }

  lemma OtherLater(c: Setup, s: St, p: PStep)
    requires Can(c, s, p) && !p.Log? && !p.Data?
    ensures Later(s, Do(c, s, p))
  {
    hide CountBefore;
  }

  lemma StepLater(c: Setup, s: St, p: PStep)
    requires c.g.ring >= MAX_TOTAL_IO_SIZE && PInv(c, s) && Can(c, s, p)
    ensures Later(s, Do(c, s, p))
  {
    PInvParts(c, s);
    hide PInv, Inv, Shape, Promised, DInv, GcOk, SyncOk, RingOk, Can, Do, Later;
    if p.Log? {
      LogLater(c, s, p.s);
    } else if p.Data? {
      DataLater(c, s, p.t);
    } else {
      OtherLater(c, s, p);
    }
  }

  lemma LaterJoin(a: St, b: St, d: St)
    requires Later(a, b) && Later(b, d)
    ensures Later(a, d)
  {
  }

  lemma {:induction false} RunLater(c: Setup, base: u64, run: seq<St>, maps: seq<PMap>, i: nat, j: nat)
    requires c.g.ring >= MAX_TOTAL_IO_SIZE && MapRun(c, base, run, maps) && i <= j < |run|
    ensures Later(run[i], run[j])
    decreases j
  {
    hide PInv, Can, Do, MapInv, MapStep, Later;
    if i < j {
      RunLater(c, base, run, maps, i, j - 1);
      MapHolds(c, base, run, maps, j - 1);
      assert BothStep(c, run[j - 1], run[j], maps[j - 1], maps[j]);
      var p :| BothFollow(c, run[j - 1], run[j], maps[j - 1], maps[j], p);
      StepLater(c, run[j - 1], p);
      LaterJoin(run[i], run[j - 1], run[j]);
    } else {
      LaterSelf(run[i]);
    }
  }

  lemma LaterSelf(s: St)
    ensures Later(s, s)
  {
  }

  /** With no pending write on a sector, all inserted writes of it have reached it. */
  lemma AllHit(e: Env, d: DataSt, x: nat, k: nat)
    requires DInv(e, d) && k < e.inserted <= |e.ls| && Covers(e.ls[k].w, x) && Newest(e.ls, d.pending, e.inserted, x) < 0
    ensures exists b :: 0 <= b < |d.hits| && d.hits[b] == Hit(x, k)
  {
    hide DInv, Newest, LastWriter, NoWriter;
    var j := FindLast(WritesIn(e.ls, e.inserted), x);
    if j < 0 {
      NoneInserted(e, x);
    } else {
      LastInserted(e, x, j);
      GoneHit(e, d, x, j, k);
    }
  }

  lemma GoneHit(e: Env, d: DataSt, x: nat, j: nat, k: nat)
    requires DInv(e, d) && k <= j < e.inserted <= |e.ls| && Covers(e.ls[k].w, x) && Covers(e.ls[j].w, x) && j !in d.pending
    requires forall m | j < m < e.inserted :: !Covers(e.ls[m].w, x)
    ensures exists b :: 0 <= b < |d.hits| && d.hits[b] == Hit(x, k)
  {
    hide MapOk, Sending, Once, Covers;
    LastIsGone(e, d, x, j);
    var b := GoneIsHit(e, d, x, k);
  }

  /** A hit that comes later on such a sector is by a write inserted later. */
  lemma LaterHit(e: Env, d: DataSt, f: Env, d2: DataSt, x: nat, a: nat)
    requires DInv(e, d) && HitsOk(f, d2) && d.hits <= d2.hits && e.ls <= f.ls && e.inserted <= |e.ls|
    requires Newest(e.ls, d.pending, e.inserted, x) < 0
    requires |d.hits| <= a < |d2.hits| && d2.hits[a].x == x
    ensures e.inserted <= d2.hits[a].k
  {
    HitsAreFit(f, d2);
    var k := d2.hits[a].k;
    hide DInv, Newest, Covers, HitsOk;
    if k < e.inserted {
      AllHit(e, d, x, k);
      NotTwice(d.hits, f, d2, x, a, k);
    }
  }

  /** No write hits a sector a second time. */
  lemma NotTwice(hits: seq<Hit>, f: Env, d2: DataSt, x: nat, a: nat, k: nat)
    requires HitsOk(f, d2) && hits <= d2.hits && (exists b :: 0 <= b < |hits| && hits[b] == Hit(x, k))
    requires |hits| <= a < |d2.hits| && d2.hits[a].x == x
    ensures d2.hits[a].k != k
  {
    hide Covers, Reached;
    var b :| 0 <= b < |hits| && hits[b] == Hit(x, k);
    assert d2.hits[b] == hits[b];
  }

  /** Hits elsewhere do not change a sector. */
  lemma {:induction false} Untouched(d0: Image, ls: seq<Logged>, ls2: seq<Logged>, hits: seq<Hit>, n: nat, x: nat)
    requires x < |d0| && n <= |hits| && ls <= ls2 && HitsFit(ls, hits[..n]) && forall a | n <= a < |hits| :: hits[a].x != x
    ensures After(d0, ls2, hits)[x] == After(d0, ls, hits[..n])[x]
    decreases |hits|
  {
    if n < |hits| {
      var m := |hits| - 1;
      assert hits[..m][..n] == hits[..n];
      Untouched(d0, ls, ls2, hits[..m], n, x);
    } else {
      assert hits[..n] == hits;
      SameAfter(d0, ls, ls2, hits);
    }
  }

  lemma {:induction false} SameAfter(d0: Image, ls: seq<Logged>, ls2: seq<Logged>, hits: seq<Hit>)
    requires ls <= ls2 && HitsFit(ls, hits)
    ensures After(d0, ls2, hits) == After(d0, ls, hits)
    decreases |hits|
  {
    if hits != [] {
      SameAfter(d0, ls, ls2, hits[..|hits| - 1]);
    }
  }

  /** It was hit later: it holds what its last hit brought. */
  lemma HitLater(d0: Image, e: Env, d: DataSt, f: Env, d2: DataSt, x: nat, a: nat)
    requires x < |d0| && DInv(e, d) && HitsOk(f, d2) && Order(f, d2) && Flight(d2) && LoggedFit(f.ls, |d0|)
    requires e.inserted <= |e.ls| && Older(e, d, f, d2) && Newest(e.ls, d.pending, e.inserted, x) < 0
    requires |d.hits| <= a < |d2.hits| && d2.hits[a].x == x && d2.hits[a].k < |f.ls| && Covers(f.ls[d2.hits[a].k].w, x)
    ensures var n := d2.hits[a].k + 1;
      e.inserted <= n <= f.inserted <= |f.ls|
      && Apply(d0, WritesIn(f.ls, n))[x] == f.ls[n - 1].w.data[x - f.ls[n - 1].w.pos]
  {
    hide DInv, Newest, Apply, HitsOk, Order, Flight, Covers, LoggedFit;
    LaterHit(e, d, f, d2, x, a);
    HitInserted(f, d2, a);
    LastOfPrefix(d0, f.ls, d2.hits[a].k, x);
  }

  /** It was not: it still holds what it held at first. */
  lemma NotHitLater(d0: Image, e: Env, d: DataSt, f: Env, d2: DataSt, x: nat)
    requires x < |d0| && DInv(e, d) && LoggedFit(f.ls, |d0|) && e.inserted <= |e.ls| && Older(e, d, f, d2)
    requires Newest(e.ls, d.pending, e.inserted, x) < 0 && forall b | |d.hits| <= b < |d2.hits| :: d2.hits[b].x != x
    ensures After(d0, f.ls, d2.hits)[x] == Apply(d0, WritesIn(f.ls, e.inserted))[x]
  {
    HitParts(e, d);
    FitsLess(e.ls, f.ls, |d0|);
    hide DInv, Newest, After, Apply, HitsFit, HitsOk, Order, Flight, LoggedFit;
    assert d2.hits[..|d.hits|] == d.hits;
    Untouched(d0, e.ls, f.ls, d2.hits, |d.hits|, x);
    ViewNow(d0, e, d, f, x);
  }

  /** Hit `a`, behind the first `n`, is the last one of the sector; or `a` is below
      `n` and none behind them is. */
  ghost predicate LastBehind(d0: Image, ls: seq<Logged>, hits: seq<Hit>, n: nat, x: nat, a: int)
    requires x < |d0|
  {
    if a < n then forall b | n <= b < |hits| :: hits[b].x != x
    else
      && a < |hits| && hits[a].x == x && hits[a].k < |ls| && Covers(ls[hits[a].k].w, x)
      && After(d0, ls, hits)[x] == ls[hits[a].k].w.data[x - ls[hits[a].k].w.pos]
  }

  lemma FindBehind(d0: Image, ls: seq<Logged>, hits: seq<Hit>, n: nat, x: nat) returns (a: int)
    requires x < |d0| && HitsFit(ls, hits) && n <= |hits|
    ensures LastBehind(d0, ls, hits, n, x, a)
  {
    hide HitsFit, After, Covers;
    a := LastHit(d0, ls, hits, x);
  }

  lemma BehindHit(d0: Image, e: Env, d: DataSt, f: Env, d2: DataSt, x: nat, a: nat)
    requires x < |d0| && DInv(e, d) && HitsOk(f, d2) && Order(f, d2) && Flight(d2) && LoggedFit(f.ls, |d0|)
    requires e.inserted <= |e.ls| && Older(e, d, f, d2) && Newest(e.ls, d.pending, e.inserted, x) < 0
    requires |d.hits| <= a && LastBehind(d0, f.ls, d2.hits, |d.hits|, x, a)
    ensures a < |d2.hits| && e.inserted <= d2.hits[a].k + 1 <= f.inserted <= |f.ls|
    ensures After(d0, f.ls, d2.hits)[x] == Apply(d0, WritesIn(f.ls, d2.hits[a].k + 1))[x]
  {
    hide DInv, HitsOk, Order, Flight, LoggedFit, Older, Newest, After, Apply, WritesIn, Covers;
    HitLater(d0, e, d, f, d2, x, a);
  }

  lemma BehindNone(d0: Image, e: Env, d: DataSt, f: Env, d2: DataSt, x: nat, a: int)
    requires x < |d0| && DInv(e, d) && LoggedFit(f.ls, |d0|) && e.inserted <= |e.ls| && Older(e, d, f, d2)
    requires Newest(e.ls, d.pending, e.inserted, x) < 0
    requires a < |d.hits| && LastBehind(d0, f.ls, d2.hits, |d.hits|, x, a)
    ensures e.inserted <= |f.ls| && After(d0, f.ls, d2.hits)[x] == Apply(d0, WritesIn(f.ls, e.inserted))[x]
  {
    OlderMeans(e, d, f, d2);
    hide DInv, LoggedFit, Older, Newest, After, Apply, WritesIn;
    NotHitLater(d0, e, d, f, d2, x);
  }

  lemma OlderCounts(e: Env, d: DataSt, f: Env, d2: DataSt)
    requires Older(e, d, f, d2)
    ensures |d.hits| <= |d2.hits| && e.inserted <= f.inserted
  {
  }

  /** A sector with no pending write on it, read from the device in a later state:
      the image after some number of writes, no fewer than were inserted at first
      and no more than are inserted now. */
  lemma LaterSector(d0: Image, e: Env, d: DataSt, f: Env, d2: DataSt, x: nat) returns (n: nat)
    requires x < |d0| && DInv(e, d) && DInv(f, d2) && LoggedFit(f.ls, |d0|)
    requires e.inserted <= |e.ls| && Older(e, d, f, d2) && Newest(e.ls, d.pending, e.inserted, x) < 0
    ensures e.inserted <= n <= f.inserted <= |f.ls|
    ensures After(d0, f.ls, d2.hits)[x] == Apply(d0, WritesIn(f.ls, n))[x]
  {
    InsertedBounds(f, d2);
    HitParts(f, d2);
    OlderCounts(e, d, f, d2);
    hide DInv, Newest, After, Apply, HitsFit, HitsOk, Order, Flight, LoggedFit, WritesIn, Older, LastBehind;
    var a := FindBehind(d0, f.ls, d2.hits, |d.hits|, x);
    n := e.inserted;
    if a >= |d.hits| {
      BehindHit(d0, e, d, f, d2, x, a);
      n := d2.hits[a].k + 1;
    } else {
      BehindNone(d0, e, d, f, d2, x, a);
    }
  }

  lemma HitParts(e: Env, d: DataSt)
    requires DInv(e, d)
    ensures HitsFit(e.ls, d.hits) && HitsOk(e, d) && Order(e, d) && Flight(d)
  {
    HitsAreFit(e, d);
    hide MapOk, PendOk, Sending, Once, HitsFit, HitsOk, Order, Flight;
  }

  lemma FitsLess(ls: seq<Logged>, ls2: seq<Logged>, size: nat)
    requires ls <= ls2 && LoggedFit(ls2, size)
    ensures LoggedFit(ls, size)
  {
    assert forall k | 0 <= k < |ls| :: ls2[k] == ls[k];
  }

  /** The last of the first writes, if it covers the sector, is what it holds. */
  lemma LastOfPrefix(d0: Image, ls: seq<Logged>, k: nat, x: nat)
    requires x < |d0| && k < |ls| && LoggedFit(ls, |d0|) && Covers(ls[k].w, x)
    ensures Apply(d0, WritesIn(ls, k + 1))[x] == ls[k].w.data[x - ls[k].w.pos]
  {
    WritesFit(ls, k + 1, |d0|);
    hide Apply, LoggedFit;
    assert LastWriter(WritesIn(ls, k + 1), x, k);
    ApplyLast(d0, WritesIn(ls, k + 1), x, k);
  }

  lemma SameWrites(ls: seq<Logged>, ls2: seq<Logged>, n: nat)
    requires n <= |ls| && ls <= ls2
    ensures WritesIn(ls2, n) == WritesIn(ls, n)
  {
  }

  lemma ViewNow(d0: Image, e: Env, d: DataSt, f: Env, x: nat)
    requires x < |d0| && DInv(e, d) && LoggedFit(f.ls, |d0|) && e.ls <= f.ls && e.inserted <= |e.ls|
    ensures e.inserted <= |f.ls|
    ensures View(d0, e, d, x) == Apply(d0, WritesIn(f.ls, e.inserted))[x]
  {
    FitsLess(e.ls, f.ls, |d0|);
    SameWrites(e.ls, f.ls, e.inserted);
    hide DInv, LoggedFit, Apply, View, WritesIn;
    ReadsSeeAllWrites(d0, e, d, x);
  }

  /** The newest pending write of the list is the image of the writes inserted. */
  lemma FoundSector(d0: Image, e: Env, d: DataSt, f: Env, cells: seq<BioWrapper>, read: Write, list: seq<BioWrapper>, x: nat, j: nat)
    requires x < |d0| && e.inserted <= |e.ls| && Holds(e, d, cells) && Listed(cells, read, list) && Covers(read, x)
    requires j < |list| && LastWriter(WritesOfList(list), x, j) && DInv(e, d) && LoggedFit(f.ls, |d0|) && e.ls <= f.ls
    ensures e.inserted <= |f.ls| && Covers(list[j].w, x)
    ensures list[j].w.pos <= x < list[j].w.pos + |list[j].w.data|
    ensures list[j].w.data[x - list[j].w.pos] == Apply(d0, WritesIn(f.ls, e.inserted))[x]
  {
    LastCovers(list, x, j);
    hide Holds, Listed, LastWriter, DInv, LoggedFit, Apply, NoWriter, After, View, WritesIn;
    ListedView(d0, e, d, cells, read, list, x, j);
    ViewNow(d0, e, d, f, x);
  }

  lemma LastCovers(list: seq<BioWrapper>, x: nat, j: nat)
    requires j < |list| && LastWriter(WritesOfList(list), x, j)
    ensures Covers(list[j].w, x) && WritesOfList(list)[j] == list[j].w
  {
  }

  lemma OlderMeans(e: Env, d: DataSt, f: Env, d2: DataSt)
    requires Older(e, d, f, d2)
    ensures e.inserted <= f.inserted && e.ls <= f.ls && e.inserted <= |e.ls|
  {
  }

  /** The pending list does not cover the sector, or its `j`-th write is the last to. */
  ghost predicate InPending(list: seq<BioWrapper>, x: nat, j: int) {
    j < |list| && if j < 0 then NoWriter(WritesOfList(list), x) else LastWriter(WritesOfList(list), x, j)
  }

  /** What the sector is to show, from the list or from the device of the later state. */
  lemma ShownLater(d0: Image, e: Env, d: DataSt, f: Env, d2: DataSt, cells: seq<BioWrapper>, read: Write, list: seq<BioWrapper>,
                   x: nat, j: int) returns (n: nat)
    requires x < |d0| && e.inserted <= |e.ls| && Holds(e, d, cells) && Listed(cells, read, list) && Covers(read, x)
    requires DInv(e, d) && DInv(f, d2) && LoggedFit(f.ls, |d0|) && Older(e, d, f, d2) && InPending(list, x, j)
    ensures e.inserted <= n <= f.inserted <= |f.ls|
    ensures j < 0 ==> After(d0, f.ls, d2.hits)[x] == Apply(d0, WritesIn(f.ls, n))[x]
    ensures j >= 0 ==> Covers(list[j].w, x) && list[j].w.data[x - list[j].w.pos] == Apply(d0, WritesIn(f.ls, n))[x]
  {
    hide Holds, Listed, After, DInv, LoggedFit, Apply, LastWriter, NoWriter, Newest, WritesIn, Older, WritesOfList;
    n := e.inserted;
    if j < 0 {
      NoneIsNewest(e, d, cells, read, list, x);
      n := LaterSector(d0, e, d, f, d2, x);
    } else {
      OlderMeans(e, d, f, d2);
      InsertedBounds(f, d2);
      FoundSector(d0, e, d, f, cells, read, list, x, j);
    }
  }

  /** What a read returns for sector `k` of its buffer, with the pending data looked
      at in one state and the device read in a later one. */
  lemma ReadLater(d0: Image, e: Env, d: DataSt, f: Env, d2: DataSt, cells: seq<BioWrapper>, list: seq<BioWrapper>,
                  buf: seq<Sector>, base: nat, ps: seq<Piece>, k: nat) returns (n: nat)
    requires e.inserted <= |e.ls| && Holds(e, d, cells) && LongerThanZero(cells) && Listed(cells, Write(base, buf), list)
    requires k < |buf| && base + |buf| <= |d0| && Partition(ps, base, base + |buf|)
    requires (forall i | 0 <= i < |ps| :: !ps[i].copied) && DInv(e, d) && DInv(f, d2) && LoggedFit(f.ls, |d0|)
    requires Older(e, d, f, d2)
    ensures e.inserted <= n <= f.inserted <= |f.ls|
    ensures ReadResult(CopyAll(buf, base, WritesOfList(list)), base, CutAll(ps, WritesOfList(list), true),
                       After(d0, f.ls, d2.hits), k)
         == Apply(d0, WritesIn(f.ls, n))[base + k]
  {
    var ws, read, x := WritesOfList(list), Write(base, buf), base + k;
    hide Partition, ReadResult, Holds, Listed, CopyAll, CutAll, LongerThanZero, After, DInv, LoggedFit, Apply, Older;
    hide LastWriter, NoWriter, ByLsid, Overlapping, Newest, Sorted, Distinct, WritesIn;
    ListIsLonger(cells, read, list);
    var j := ReadIsRight(buf, base, ps, ws, After(d0, f.ls, d2.hits), k);
    InList(ws, x, j);
    n := ShownLater(d0, e, d, f, d2, cells, read, list, x, j);
  }

  /** In every run: a read looks at the pending map in state `i`, and the sectors it
      has not found there it reads from the device in any later state `j`. What it
      returns for a sector is the image of the first `n` writes, with `n` between the
      number inserted at `i` and the number inserted at `j`. If nothing happens in
      between that is the image of all writes inserted so far. */
  lemma EveryRunReads(c: Setup, base: u64, run: seq<St>, maps: seq<PMap>, i: nat, j: nat, d0: Image, list: seq<BioWrapper>,
                      buf: seq<Sector>, pos: nat, ps: seq<Piece>, k: nat) returns (n: nat)
    requires c.g.ring >= MAX_TOTAL_IO_SIZE && MapRun(c, base, run, maps) && i <= j < |run| && |d0| == c.size
    requires Listed(maps[i].cells, Write(pos, buf), list)
    requires k < |buf| && pos + |buf| <= |d0| && Partition(ps, pos, pos + |buf|)
    requires forall q | 0 <= q < |ps| :: !ps[q].copied
    ensures run[i].l.inserted <= n <= run[j].l.inserted <= |run[j].l.writes|
    ensures ReadResult(CopyAll(buf, pos, WritesOfList(list)), pos, CutAll(ps, WritesOfList(list), true),
                       After(d0, run[j].l.writes, run[j].d.hits), k)
         == Apply(d0, WritesIn(run[j].l.writes, n))[pos + k]
  {
    assert |maps| == |run|;
    hide MapRun, Partition, ReadResult, Apply, Holds, Listed, CopyAll, CutAll, LongerThanZero, After;
    hide PInv, Inv, Shape, Promised, DInv, GcOk, SyncOk, RingOk, LoggedFit, Marks;
    MapHolds(c, base, run, maps, i);
    MapHolds(c, base, run, maps, j);
    RunLater(c, base, run, maps, i, j);
    PInvParts(c, run[i]);
    PInvParts(c, run[j]);
    InvAcked(c, run[i].l);
    CellsLonger(c, run[i], maps[i]);
    AllWritesFit(c, run[j].l);
    assert Older(EnvOf(run[i].l), run[i].d, EnvOf(run[j].l), run[j].d);
    n := ReadLater(d0, EnvOf(run[i].l), run[i].d, EnvOf(run[j].l), run[j].d, maps[i].cells, list, buf, pos, ps, k);
  }
}
