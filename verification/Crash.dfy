/** A crash at any point of any run, and the replay that follows: module/redo.c
    run from the superblock that module/super.c left. */
module Crash {
  import opened Words
  import opened LogRecord
  import opened Logpack
  import opened WritePack
  import opened Disk
  import opened LogDevice
  import opened Redo
  import opened RoundTrip
  import opened Recovery
  import opened Submit
  import opened Restart
  import opened LogSide
  import opened Promises
  import opened DataSide
  import opened Pipeline

  // ------------------------------------------------- what a crash leaves behind

  /** A later block was submitted to the place of block `m`. */
  ghost predicate Overwritten(c: Setup, l: LogSt, m: nat) {
    exists m2 :: m2 in l.issued && m < m2 && Slot(c.g, m2) == Slot(c.g, m)
  }

  /** The log device after a crash: a block on the medium is intact unless a later
      one was submitted to its place; of all other blocks nothing is known. */
  ghost predicate CrashLog(c: Setup, cfg: Config, l: LogSt, dev: seq<Block>)
    requires cfg.g == c.g && ValidImage(c.g, dev)
  {
    forall i, m: nat | 0 <= i < |l.packs| && HasBlock(c.g, l.packs[i].p, m) && m in l.durable && !Overwritten(c, l, m) ::
      |l.packs[i].p.header.records| <= MaxRecords(c.g.nLb) && BlockIntact(c.g, cfg.salt, dev, l.packs[i].p, m)
  }

  /** What sector `x` held after the first `p` hits. */
  predicate HeldAt(d0: Image, ls: seq<Logged>, hits: seq<Hit>, p: nat, x: nat, v: Sector)
    requires x < |d0| && p <= |hits|
  {
    After(d0, ls, hits[..p])[x] == v
  }

  /** Sector `x` may hold `v` after a crash: it did so at some time since the first
      `h` hits. */
  ghost predicate MayHold(d0: Image, ls: seq<Logged>, hits: seq<Hit>, h: nat, x: nat, v: Sector)
    requires x < |d0|
  {
    exists p :: h <= p <= |hits| && HeldAt(d0, ls, hits, p, x, v)
  }

  /** The data device after a crash: each sector holds what it held at the last
      flush or at any time since. */
  ghost predicate CrashData(s: St, d0: Image, d: Image) {
    |d| == |d0| && forall x | 0 <= x < |d0| :: MayHold(d0, s.l.writes, s.d.hits, s.flushed, x, d[x])
  }

  // ------------------------------------------------------------ the live log

  /** The packs replay has to look at: those from the superblock's written_lsid on. */
  function Live(s: St): seq<Pack>
    requires s.nSuper <= |s.l.packs|
  {
    Packs(s.l)[s.nSuper..]
  }

  lemma DropChained(ps: seq<Pack>, start: nat, end: nat, n: nat)
    requires Chained(ps, start, end) && n <= |ps|
    ensures Chained(ps[n..], if n < |ps| then ps[n].header.lsid else end, end)
  {
    hide NextLsid;
  }

  /** No block of the live log is ever overwritten: all submitted lsids stay within
      one ring length of prev_written, which never passes the superblock. */
  lemma RingSafe(c: Setup, s: St, m: nat)
    requires RingOk(c, s) && s.prevWritten <= s.super <= m
    ensures !Overwritten(c, s.l, m)
  {
    forall m2 | m2 in s.l.issued && m < m2 ensures Slot(c.g, m2) != Slot(c.g, m) {
      SlotInjective(c.g, m, m2);
    }
  }

  lemma LiveLog(c: Setup, s: St)
    requires Shape(c, s.l) && GcOk(c, s)
    ensures s.nSuper <= |s.l.packs| && GoodPacks(c.g, Live(s)) && Chained(Live(s), s.super, s.l.latest)
    ensures CountBefore(c, s.l, s.nSuper) <= |s.l.writes|
    ensures AllLogged(c.g, Live(s)) == s.l.writes[CountBefore(c, s.l, s.nSuper)..]
    ensures AllFit(WritesOf(s.l.writes), c.size)
  {
    ShapeFacts(c, s.l);
    hide Shape, HitBy, GoodPacks, Chained, AllLogged, AllFit;
    SplitWrites(c, s.l, s.nSuper);
    TakeGood(c.g, Packs(s.l), s.nSuper);
    DropChained(Packs(s.l), s.l.base, s.l.latest, s.nSuper);
  }

  /** Whatever is durable of the live log is intact after the crash. */
  lemma LiveKept(c: Setup, cfg: Config, s: St, dev: seq<Block>)
    requires cfg.g == c.g && ValidImage(c.g, dev) && Shape(c, s.l) && GcOk(c, s) && RingOk(c, s) && CrashLog(c, cfg, s.l, dev)
    ensures s.nSuper <= |s.l.packs| && GoodPacks(c.g, Live(s)) && Kept(cfg, dev, Live(s), s.l.durable)
  {
    LiveLog(c, s);
    SuperStart(c, s);
    hide Shape, GcOk, RingOk, GoodPacks, HasBlock, BlockIntact, ValidImage, BlocksOf, Overwritten, Chained, AllLogged, AllFit;
    forall i, m: nat | 0 <= i < |Live(s)| && HasBlock(c.g, Live(s)[i], m) && m in s.l.durable
      ensures |Live(s)[i].header.records| <= MaxRecords(c.g.nLb) && BlockIntact(c.g, cfg.salt, dev, Live(s)[i], m)
    {
      LiveBlock(c, s, i, m);
      RingSafe(c, s, m);
      assert HasBlock(c.g, s.l.packs[s.nSuper + i].p, m);
    }
  }

  lemma SuperStart(c: Setup, s: St)
    requires GcOk(c, s)
    ensures s.prevWritten <= s.super == StartOf(s.l, s.nSuper) && s.nSuper <= |s.l.packs|
  {
    hide HitBy, CountBefore;
  }

  lemma LiveBlock(c: Setup, s: St, i: nat, m: nat)
    requires Shape(c, s.l) && s.nSuper <= |s.l.packs| && i < |Live(s)| && HasBlock(c.g, Live(s)[i], m)
    ensures s.nSuper + i < |s.l.packs| && Live(s)[i] == s.l.packs[s.nSuper + i].p
    ensures StartOf(s.l, s.nSuper) <= StartOf(s.l, s.nSuper + i) <= m
    ensures m in BlocksOf(c.g, s.l.packs[s.nSuper + i].p)
  {
    hide Shape, BlocksOf, HasBlock;
    BlocksOfHas(c.g, Live(s)[i], m);
    BlocksAreInside(c, s.l, s.nSuper + i, m);
    StartMono(c, s.l, s.nSuper, s.nSuper + i);
  }

  /** If the submitted blocks below `x` are on the medium, replay does not stop in
      front of a write that ends at or before `x`. */
  lemma NotLost(c: Setup, s: St, e: Logged, x: nat)
    requires Shape(c, s.l) && Position(c, s.l) && IssuedOk(c, s.l) && s.nSuper <= |s.l.packs|
    requires OnMedium(s.l, x) && End(e) <= x
    ensures !Lost(c.g, Live(s), s.l.durable, e)
  {
    EdgeBound(c, s.l);
    hide Shape, Position, IssuedOk, BlocksOf, HasBlock, StartOf;
    forall i, m: nat | 0 <= i < |Live(s)| && HasBlock(c.g, Live(s)[i], m) && m < End(e) ensures m in s.l.durable {
      LiveBlock(c, s, i, m);
      BelowIsIssued(c, s.l, s.nSuper + i, m);
    }
  }

  /** A block of a pack below the frontier of submission has been submitted. */
  lemma BelowIsIssued(c: Setup, l: LogSt, i: nat, m: nat)
    requires Shape(c, l) && IssuedOk(c, l) && i < |l.packs| && m in BlocksOf(c.g, l.packs[i].p) && m < StartOf(l, l.nSub)
    ensures m in l.issued
  {
    hide BlocksOf;
    ShapeFacts(c, l);
    BlocksAreInside(c, l, i, m);
    if l.nSub <= i {
      StartMono(c, l, l.nSub, i);
    }
    hide Shape;
  }

  // --------------------------------------------------------- the data device

  /** All hits are by writes below `n`. */
  ghost predicate HitsBelow(hits: seq<Hit>, n: nat) {
    forall a | 0 <= a < |hits| :: hits[a].k < n
  }

  /** Hits of one sector come in log order. */
  ghost predicate InOrder(hits: seq<Hit>) {
    forall a, b | 0 <= a < b < |hits| && hits[a].x == hits[b].x :: hits[a].k < hits[b].k
  }

  /** A sector that replay does not write already holds what the writes before the
      live log made of it: its last writer reached it before the flush, and no
      later write did. */
  lemma {:induction false} OldSector(d0: Image, ls: seq<Logged>, hits: seq<Hit>, h: nat, p: nat, n: nat, m: nat, x: nat)
    requires x < |d0| && LoggedFit(ls, |d0|) && HitsFit(ls, hits) && HitsBelow(hits, m) && InOrder(hits)
    requires n <= m <= |ls| && h <= p <= |hits| && HitBy(ls, hits, h, n)
    requires forall k | n <= k < m :: !Covers(ls[k].w, x)
    ensures After(d0, ls, hits[..p])[x] == Apply(d0, WritesIn(ls, n))[x]
  {
    var ws := WritesIn(ls, n);
    WritesFit(ls, n, |d0|);
    TakeFit(ls, hits, p);
    hide LoggedFit, After, Apply, AllFit, HitBy, Covers, HitsFit, HitsBelow, InOrder;
    var j := FindLast(ws, x);
    if j < 0 {
      ApplyNone(d0, ws, x);
      NeverHit(d0, ls, hits, p, n, m, x);
    } else {
      ApplyLast(d0, ws, x, j);
      var b := EarlyHit(ls, hits, h, n, x, j);
      assert hits[..p][b] == hits[b];
      var a := LastHitFrom(d0, ls, hits[..p], x, b);
      SameHit(ls, hits, n, m, x, j, b, a);
    }
  }

  lemma TakeFit(ls: seq<Logged>, hits: seq<Hit>, p: nat)
    requires HitsFit(ls, hits) && p <= |hits|
    ensures HitsFit(ls, hits[..p])
  {
  }

  lemma EarlyHit(ls: seq<Logged>, hits: seq<Hit>, h: nat, n: nat, x: nat, j: nat) returns (b: nat)
    requires n <= |ls| && HitBy(ls, hits, h, n) && LastWriter(WritesIn(ls, n), x, j)
    ensures b < h <= |hits| && hits[b] == Hit(x, j) && j < n
  {
    assert Covers(ls[j].w, x) && Reached(hits[..h], x, j);
    b :| 0 <= b < h && hits[..h][b] == Hit(x, j);
  }

  lemma SameHit(ls: seq<Logged>, hits: seq<Hit>, n: nat, m: nat, x: nat, j: nat, b: nat, a: nat)
    requires n <= m <= |ls| && HitsBelow(hits, m) && InOrder(hits) && LastWriter(WritesIn(ls, n), x, j)
    requires forall k | n <= k < m :: !Covers(ls[k].w, x)
    requires b <= a < |hits| && hits[b] == Hit(x, j) && hits[a].x == x && hits[a].k < |ls| && Covers(ls[hits[a].k].w, x)
    ensures hits[a].k == j
  {
    var k := hits[a].k;
    assert k < m && j <= k;
    hide Covers;
    assert k < n ==> WritesIn(ls, n)[k] == ls[k].w;
  }

  lemma NeverHit(d0: Image, ls: seq<Logged>, hits: seq<Hit>, p: nat, n: nat, m: nat, x: nat)
    requires x < |d0| && n <= m <= |ls| && p <= |hits| && HitsFit(ls, hits) && HitsBelow(hits, m) && NoWriter(WritesIn(ls, n), x)
    requires forall k | n <= k < m :: !Covers(ls[k].w, x)
    ensures After(d0, ls, hits[..p])[x] == d0[x]
  {
    TakeFit(ls, hits, p);
    var a := LastHit(d0, ls, hits[..p], x);
    hide Covers, After;
    NoneInPrefix(ls, n, x);
  }

  lemma NoneInPrefix(ls: seq<Logged>, n: nat, x: nat)
    requires n <= |ls| && NoWriter(WritesIn(ls, n), x)
    ensures forall k | 0 <= k < n :: !Covers(ls[k].w, x)
  {
    hide Covers;
    forall k | 0 <= k < n ensures !Covers(ls[k].w, x) {
      assert WritesIn(ls, n)[k] == ls[k].w;
    }
  }

  /** Replaying the writes from `n` to `m` on what the crash left of the data
      device gives all writes up to `m` in order. */
  lemma ReplayCompletes(d0: Image, d: Image, ls: seq<Logged>, hits: seq<Hit>, h: nat, n: nat, m: nat)
    requires |d| == |d0| && LoggedFit(ls, |d0|) && HitsFit(ls, hits) && HitsBelow(hits, m) && InOrder(hits)
    requires n <= m <= |ls| && HitBy(ls, hits, h, n)
    requires forall x | 0 <= x < |d0| :: MayHold(d0, ls, hits, h, x, d[x])
    ensures Apply(d, WritesIn(ls, m)[n..]) == Apply(d0, WritesIn(ls, m))
  {
    var ws := WritesIn(ls, m);
    WritesFit(ls, m, |d0|);
    assert ws == ws[..n] + ws[n..] && ws[..n] == WritesIn(ls, n);
    ApplyConcat(d0, ws[..n], ws[n..]);
    hide LoggedFit, HitsFit, HitsBelow, InOrder, HitBy, Apply, After, Covers, HeldAt;
    assert AllFit(ws[n..], |d0|);
    hide AllFit;
    forall x: nat | x < |d| && NoWriter(ws[n..], x) ensures d[x] == Apply(d0, WritesIn(ls, n))[x] {
      NoneBetween(ls, n, m, x);
      assert MayHold(d0, ls, hits, h, x, d[x]);
      var p :| h <= p <= |hits| && HeldAt(d0, ls, hits, p, x, d[x]);
      HeldMeans(d0, ls, hits, p, x, d[x]);
      OldSector(d0, ls, hits, h, p, n, m, x);
    }
    ApplyForgets(d, Apply(d0, WritesIn(ls, n)), ws[n..]);
  }

  lemma HeldMeans(d0: Image, ls: seq<Logged>, hits: seq<Hit>, p: nat, x: nat, v: Sector)
    requires x < |d0| && p <= |hits| && HeldAt(d0, ls, hits, p, x, v)
    ensures After(d0, ls, hits[..p])[x] == v
  {
  }

  lemma NoneBetween(ls: seq<Logged>, n: nat, m: nat, x: nat)
    requires n <= m <= |ls| && NoWriter(WritesIn(ls, m)[n..], x)
    ensures forall k | n <= k < m :: !Covers(ls[k].w, x)
  {
    hide Covers;
    forall k | n <= k < m ensures !Covers(ls[k].w, x) {
      assert WritesIn(ls, m)[n..][k - n] == ls[k].w;
    }
  }

  // ------------------------------------------------------------ the theorem

  /** All writes acknowledged before the flush was queued are among the first `m`. */
  ghost predicate FlushSurvives(l: LogSt, f: AckedFlush, m: nat) {
    f.pack < |l.packs|
    && (Unguarded(l.packs[f.pack], f.pack) || forall k | 0 <= k < |l.writes| && End(l.writes[k]) <= f.stamp :: k < m)
  }

  /** Replay made of the data device exactly the first `m` writes in log order.
      Among them are all writes ever sent to the data device, all acknowledged FUA
      writes, and, for each acknowledged flush whose own pack did not defeat the
      flush of its batch, all writes acknowledged before it was queued. Logging
      resumes right behind them. */
  ghost predicate Recovered(s: St, d0: Image, d: Image, o: Outcome, m: nat) {
    && m <= |s.l.writes|
    && Apply(d, Writes(o.ios)) == Apply(d0, WritesIn(s.l.writes, m))
    && (forall k | k in s.d.submitted :: k < m)
    && (forall k | 0 <= k < |s.l.writes| && End(s.l.writes[k]) <= s.l.fuaPromise :: k < m)
    && (forall n | 0 <= n < |s.l.flushes| :: FlushSurvives(s.l, s.l.flushes[n], m))
    && (m > 0 ==> End(s.l.writes[m - 1]) <= o.next)
    && (if m < |s.l.writes| then o.next <= s.l.writes[m].lsid else o.next == s.l.latest)
  }

  /** Replay goes at least up to every write that ends in the durable log. */
  lemma ReplayReaches(c: Setup, cfg: Config, s: St, d: Image, o: Outcome, n: nat, k: nat, j: nat, x: nat)
    requires Shape(c, s.l) && Position(c, s.l) && IssuedOk(c, s.l) && s.nSuper <= |s.l.packs| && cfg.g == c.g
    requires n <= |s.l.writes| && AllLogged(c.g, Live(s)) == s.l.writes[n..]
    requires Recovers(cfg, Live(s), s.l.latest, s.l.durable, d, o, k)
    requires j < |s.l.writes| && End(s.l.writes[j]) <= x && OnMedium(s.l, x)
    ensures j < n + k
  {
    hide Position, IssuedOk, Lost, OnMedium, AllLogged, Live;
    if n + k <= j {
      if n + k < j {
        WritesOrdered(c, s.l, n + k, j);
      }
      hide Shape;
      assert AllLogged(c.g, Live(s))[k] == s.l.writes[n + k];
      NotLostHere(c, s, s.l.writes[n + k], x);
    }
  }

  lemma NotLostHere(c: Setup, s: St, e: Logged, x: nat)
    requires s.nSuper <= |s.l.packs| && Shape(c, s.l) && Position(c, s.l) && IssuedOk(c, s.l)
    requires OnMedium(s.l, x) && End(e) <= x
    ensures !Lost(c.g, Live(s), s.l.durable, e)
  {
    hide Shape, Position, IssuedOk, OnMedium, Lost;
    NotLost(c, s, e, x);
  }

  /** What is promised, and what was sent to the data device, is in the durable log. */
  lemma Durable(c: Setup, s: St)
    requires PInv(c, s)
    ensures OnMedium(s.l, s.l.permanent) && s.l.fuaPromise <= s.l.permanent
    ensures FlushKept(s.l)
    ensures forall k | k in s.d.submitted :: k < |s.l.writes| && End(s.l.writes[k]) <= s.l.permanent
  {
    PInvParts(c, s);
    InvRest(c, s.l);
    hide PInv, Inv, Shape, GcOk, SyncOk, RingOk, OnMedium, FlushKept, Stamps, FuaDone, DInv, HeaderOrFua;
    PermanentOnMedium(s.l, s.l.permanent);
    hide FlushOk;
    SubmittedPermanent(EnvOf(s.l), s.d);
  }

  lemma SubmittedPermanent(e: Env, d: DataSt)
    requires DInv(e, d)
    ensures forall k | k in d.submitted :: k < |e.ls| && End(e.ls[k]) <= e.permanent
  {
    hide PendOk, HitsOk, Entries, Free;
  }

  lemma DataParts(e: Env, d: DataSt, m: nat)
    requires DInv(e, d) && forall k | k in d.submitted :: k < m
    ensures HitsFit(e.ls, d.hits) && HitsBelow(d.hits, m) && InOrder(d.hits)
  {
    HitsAreFit(e, d);
    hide MapOk, PendOk, Order, Flight, Covers, Reached;
  }

  lemma FitsAll(c: Setup, l: LogSt)
    requires AllFit(WritesOf(l.writes), c.size)
    ensures LoggedFit(l.writes, c.size)
  {
    forall k | 0 <= k < |l.writes| ensures Fits(l.writes[k].w, c.size) {
      assert Fits(WritesOf(l.writes)[k], c.size);
    }
  }

  lemma LiveWrites(ls: seq<Logged>, n: nat, k: nat)
    requires n + k <= |ls|
    ensures WritesOf(ls[n..])[..k] == WritesIn(ls, n + k)[n..]
  {
  }

  lemma GcHits(c: Setup, s: St)
    requires GcOk(c, s)
    ensures s.nSuper <= |s.l.packs| && HitBy(s.l.writes, s.d.hits, s.flushed, CountBefore(c, s.l, s.nSuper))
  {
    hide HitBy, CountBefore;
  }

  lemma CrashHeld(s: St, d0: Image, d: Image)
    requires CrashData(s, d0, d)
    ensures |d| == |d0|
    ensures forall x | 0 <= x < |d0| :: MayHold(d0, s.l.writes, s.d.hits, s.flushed, x, d[x])
  {
    hide MayHold;
  }

  /** The data device, once replay has gone `k` writes into the live log. */
  lemma {:induction false} DataRecovered(c: Setup, s: St, d0: Image, d: Image, n: nat, k: nat)
    requires Shape(c, s.l) && GcOk(c, s) && DInv(EnvOf(s.l), s.d) && |d0| == c.size && CrashData(s, d0, d)
    requires n == CountBefore(c, s.l, s.nSuper) && n + k <= |s.l.writes| && forall j | j in s.d.submitted :: j < n + k
    ensures Apply(d, WritesOf(s.l.writes[n..])[..k]) == Apply(d0, WritesIn(s.l.writes, n + k))
  {
    hide Shape, GcOk, DInv, CrashData, MayHold, Apply, HitBy, HitsFit, HitsBelow, InOrder, AllFit, LoggedFit, CountBefore, GoodPacks,
      Chained, AllLogged, WritesOf, WritesIn;
    GcHits(c, s);
    CrashHeld(s, d0, d);
    ShapeFacts(c, s.l);
    FitsAll(c, s.l);
    DataParts(EnvOf(s.l), s.d, n + k);
    LiveWrites(s.l.writes, n, k);
    ReplayCompletes(d0, d, s.l.writes, s.d.hits, s.flushed, n, n + k);
  }

  lemma RecoversEnds(c: Config, ps: seq<Pack>, end: nat, kept: set<nat>, d: Image, o: Outcome, k: nat)
    requires Recovers(c, ps, end, kept, d, o, k)
    ensures var ls := AllLogged(c.g, ps);
      && k <= |ls| && (k > 0 ==> End(ls[k - 1]) <= o.next || k == |ls|)
      && (if k == |ls| then o.next == end else o.next <= ls[k].lsid)
  {
    hide AllLogged, Lost, Apply;
  }

  lemma LastInside(c: Setup, l: LogSt)
    requires Shape(c, l) && l.writes != []
    ensures End(l.writes[|l.writes| - 1]) <= l.latest
  {
    ShapeFacts(c, l);
    hide Shape, GoodPacks, Chained, AllLogged, AllFit;
    LoggedInside(c.g, Packs(l), l.base, l.latest, |l.writes| - 1);
  }

  lemma ResumesRight(c: Setup, cfg: Config, s: St, dev: seq<Block>, d: Image, n: nat, k: nat)
    requires cfg.g == c.g && ValidImage(c.g, dev) && Shape(c, s.l) && s.nSuper <= |s.l.packs|
    requires n == CountBefore(c, s.l, s.nSuper) <= |s.l.writes| && AllLogged(c.g, Live(s)) == s.l.writes[n..]
    requires s.super == StartOf(s.l, s.nSuper)
    requires Recovers(cfg, Live(s), s.l.latest, s.l.durable, d, RedoLog(cfg, dev, s.super), k)
    ensures var o, m := RedoLog(cfg, dev, s.super), n + k;
      && m <= |s.l.writes| && (m > 0 ==> End(s.l.writes[m - 1]) <= o.next)
      && (if m < |s.l.writes| then o.next <= s.l.writes[m].lsid else o.next == s.l.latest)
  {
    hide Recovers, Shape, ValidImage, RedoLog, StartOf, Live, AllLogged, CountBefore;
    RecoversEnds(cfg, Live(s), s.l.latest, s.l.durable, d, RedoLog(cfg, dev, s.super), k);
    RedoForward(cfg, dev, s.super);
    if n + k == |s.l.writes| {
      if n + k > 0 {
        LastInside(c, s.l);
      }
    } else if k == 0 && n > 0 {
      WritesBefore(c, s.l, s.nSuper, n - 1);
    }
    TailAt(s.l.writes, n, k);
  }

  lemma TailAt(ls: seq<Logged>, n: nat, k: nat)
    requires n + k <= |ls|
    ensures |ls[n..]| == |ls| - n
    ensures k > 0 ==> ls[n..][k - 1] == ls[n + k - 1]
    ensures n + k < |ls| ==> ls[n..][k] == ls[n + k]
  {
  }

  /** What replay makes of the live log, whatever lies behind its end. */
  lemma LiveReplayed(c: Setup, cfg: Config, s: St, dev: seq<Block>, d: Image) returns (k: nat)
    requires c.g == cfg.g && ValidImage(c.g, dev) && PInv(c, s) && |d| == c.size && CrashLog(c, cfg, s.l, dev)
    requires s.nSuper <= |s.l.packs| && GoodPacks(c.g, Live(s)) && DetectsInside(cfg, dev, Live(s))
    ensures Replays(cfg, dev, Live(s), s.l.latest, s.l.durable, d, RedoLog(cfg, dev, s.super), k)
  {
    hide PInv, ValidImage, CrashLog, Live, GoodPacks, DetectsInside, RedoLog, Replays, DInv, GcOk, RingOk, SyncOk, Inv;
    hide Shape, Promised, AllLogged, CountBefore, Chained, Kept, AllFit, WritesOf;
    PInvParts(c, s);
    LiveLog(c, s);
    LiveKept(c, cfg, s, dev);
    LiveFits(s.l.writes, CountBefore(c, s.l, s.nSuper), c.size);
    k := RedoFollows(cfg, dev, Live(s), s.super, s.l.latest, s.l.durable, d);
  }

  /** If replay recovers `k` requests of the live log, the device is recovered. */
  lemma RecoveredFrom(c: Setup, cfg: Config, s: St, dev: seq<Block>, d0: Image, d: Image, k: nat) returns (m: nat)
    requires c.g == cfg.g && ValidImage(c.g, dev) && PInv(c, s) && |d0| == c.size && CrashData(s, d0, d)
    requires s.nSuper <= |s.l.packs| && Recovers(cfg, Live(s), s.l.latest, s.l.durable, d, RedoLog(cfg, dev, s.super), k)
    ensures Recovered(s, d0, d, RedoLog(cfg, dev, s.super), m)
  {
    hide PInv, ValidImage, CrashData, Live, GoodPacks, RedoLog, Recovers, DInv, GcOk, RingOk, SyncOk, Inv;
    hide Shape, Promised, OnMedium, FlushSurvives, FlushKept, Apply, AllLogged, CountBefore, Chained, AllFit, Writes, WritesOf, Grows;
    PInvParts(c, s);
    Durable(c, s);
    LiveLog(c, s);
    SuperStart(c, s);
    var n := CountBefore(c, s.l, s.nSuper);
    m := n + k;
    var o := RedoLog(cfg, dev, s.super);
    ResumesRight(c, cfg, s, dev, d, n, k);
    AllReached(c, cfg, s, d, o, n, k);
    DataRecovered(c, s, d0, d, n, k);
    ReplayedWrites(cfg, s, d, o, n, k);
  }

  /** Crash recovery. Take any state the pipeline can reach, any log device and any
      data device a crash in that state can leave behind, and replay the log from
      the superblock: the data device then holds exactly a prefix of the writes
      applied in order, with everything that was promised in it. */
  lemma CrashRecovery(c: Setup, cfg: Config, s: St, dev: seq<Block>, d0: Image, d: Image) returns (m: nat)
    requires c.g == cfg.g && ValidImage(c.g, dev) && PInv(c, s) && |d0| == c.size
    requires CrashLog(c, cfg, s.l, dev) && CrashData(s, d0, d)
    requires s.nSuper <= |s.l.packs| && GoodPacks(c.g, Live(s)) && Detects(cfg, dev, Live(s), s.l.latest)
    ensures Recovered(s, d0, d, RedoLog(cfg, dev, s.super), m)
  {
    DetectsParts(cfg, dev, Live(s), s.l.latest);
    hide PInv, ValidImage, CrashLog, CrashData, Live, GoodPacks, Detects, DetectsInside, RedoLog, Recovers, Recovered, Replays;
    SizeSame(s, d0, d);
    var k := LiveReplayed(c, cfg, s, dev, d);
    assert !GoesOn(cfg, dev, s.l.latest);
    ReplaysWell(cfg, dev, Live(s), s.l.latest, s.l.durable, d, RedoLog(cfg, dev, s.super), k);
    m := RecoveredFrom(c, cfg, s, dev, d0, d, k);
  }

  /** Without an assumption on what lies behind the end of the log: the device is
      recovered if and only if replay does not run past that end, and it runs past
      it only if the block there takes it on. */
  lemma CrashRecoveryExact(c: Setup, cfg: Config, s: St, dev: seq<Block>, d0: Image, d: Image)
    requires c.g == cfg.g && ValidImage(c.g, dev) && PInv(c, s) && |d0| == c.size
    requires CrashLog(c, cfg, s.l, dev) && CrashData(s, d0, d)
    requires s.nSuper <= |s.l.packs| && GoodPacks(c.g, Live(s)) && DetectsInside(cfg, dev, Live(s))
    ensures (exists m: nat :: Recovered(s, d0, d, RedoLog(cfg, dev, s.super), m)) <==> RedoLog(cfg, dev, s.super).next <= s.l.latest
    ensures RedoLog(cfg, dev, s.super).next > s.l.latest ==> GoesOn(cfg, dev, s.l.latest)
  {
    hide PInv, ValidImage, CrashLog, CrashData, Live, GoodPacks, DetectsInside, RedoLog, Recovers, Recovered, Replays, GoesOn;
    SizeSame(s, d0, d);
    var o := RedoLog(cfg, dev, s.super);
    var k := LiveReplayed(c, cfg, s, dev, d);
    if !GoesOn(cfg, dev, s.l.latest) || o.next <= s.l.latest {
      ReplaysWell(cfg, dev, Live(s), s.l.latest, s.l.durable, d, o, k);
      var m := RecoveredFrom(c, cfg, s, dev, d0, d, k);
      RecoveredInside(c, s, d0, d, o, m);
    } else {
      forall m: nat ensures !Recovered(s, d0, d, o, m) {
        if Recovered(s, d0, d, o, m) {
          RecoveredInside(c, s, d0, d, o, m);
        }
      }
    }
  }

  /** Logging never resumes behind the end of the log. */
  lemma RecoveredInside(c: Setup, s: St, d0: Image, d: Image, o: Outcome, m: nat)
    requires PInv(c, s) && Recovered(s, d0, d, o, m)
    ensures o.next <= s.l.latest
  {
    PInvParts(c, s);
    ShapeFacts(c, s.l);
    hide PInv, Shape, Inv, Promised, DInv, GcOk, SyncOk, RingOk, GoodPacks, Chained, AllLogged, AllFit, FlushSurvives, Apply;
    if m < |s.l.writes| {
      LoggedInside(c.g, Packs(s.l), s.l.base, s.l.latest, m);
    }
  }

  lemma SizeSame(s: St, d0: Image, d: Image)
    requires CrashData(s, d0, d)
    ensures |d| == |d0|
  {
  }

  lemma LiveFits(ls: seq<Logged>, n: nat, size: nat)
    requires n <= |ls| && AllFit(WritesOf(ls), size)
    ensures AllFit(WritesOf(ls[n..]), size)
  {
    forall i | 0 <= i < |ls[n..]| ensures Fits(WritesOf(ls[n..])[i], size) {
      assert WritesOf(ls[n..])[i] == WritesOf(ls)[n + i];
    }
  }

  lemma ReplayedWrites(cfg: Config, s: St, d: Image, o: Outcome, n: nat, k: nat)
    requires s.nSuper <= |s.l.packs| && n <= |s.l.writes| && AllLogged(cfg.g, Live(s)) == s.l.writes[n..]
    requires Recovers(cfg, Live(s), s.l.latest, s.l.durable, d, o, k)
    ensures k <= |s.l.writes[n..]| && Apply(d, Writes(o.ios)) == Apply(d, WritesOf(s.l.writes[n..])[..k])
  {
    hide Lost, Apply, AllLogged, Live;
  }

  lemma AllReached(c: Setup, cfg: Config, s: St, d: Image, o: Outcome, n: nat, k: nat)
    requires PInv(c, s) && s.nSuper <= |s.l.packs| && cfg.g == c.g
    requires n <= |s.l.writes| && AllLogged(c.g, Live(s)) == s.l.writes[n..]
    requires Recovers(cfg, Live(s), s.l.latest, s.l.durable, d, o, k)
    ensures forall j | j in s.d.submitted :: j < n + k
    ensures forall j | 0 <= j < |s.l.writes| && End(s.l.writes[j]) <= s.l.fuaPromise :: j < n + k
    ensures forall q | 0 <= q < |s.l.flushes| :: FlushSurvives(s.l, s.l.flushes[q], n + k)
  {
    Durable(c, s);
    LogParts(c, s);
    hide PInv, Shape, Position, IssuedOk, OnMedium, AllLogged, Live, Recovers, FlushSurvives;
    forall j | j in s.d.submitted ensures j < n + k {
      ReplayReaches(c, cfg, s, d, o, n, k, j, s.l.permanent);
    }
    forall j | 0 <= j < |s.l.writes| && End(s.l.writes[j]) <= s.l.fuaPromise ensures j < n + k {
      ReplayReaches(c, cfg, s, d, o, n, k, j, s.l.permanent);
    }
    forall q | 0 <= q < |s.l.flushes| ensures FlushSurvives(s.l, s.l.flushes[q], n + k) {
      FlushReached(c, cfg, s, d, o, n, k, q);
    }
  }

  lemma FlushReached(c: Setup, cfg: Config, s: St, d: Image, o: Outcome, n: nat, k: nat, q: nat)
    requires Shape(c, s.l) && Position(c, s.l) && IssuedOk(c, s.l) && s.nSuper <= |s.l.packs| && cfg.g == c.g
    requires n <= |s.l.writes| && AllLogged(c.g, Live(s)) == s.l.writes[n..]
    requires Recovers(cfg, Live(s), s.l.latest, s.l.durable, d, o, k)
    requires q < |s.l.flushes| && KeepsFlush(s.l, s.l.flushes[q])
    ensures FlushSurvives(s.l, s.l.flushes[q], n + k)
  {
    hide Shape, Position, IssuedOk, OnMedium, AllLogged, Live, Recovers, Unguarded;
    var f := s.l.flushes[q];
    if !Unguarded(s.l.packs[f.pack], f.pack) {
      forall j | 0 <= j < |s.l.writes| && End(s.l.writes[j]) <= f.stamp ensures j < n + k {
        ReplayReaches(c, cfg, s, d, o, n, k, j, f.stamp);
      }
    }
  }

  lemma LogParts(c: Setup, s: St)
    requires PInv(c, s)
    ensures Shape(c, s.l) && Position(c, s.l) && IssuedOk(c, s.l)
  {
    PInvParts(c, s);
    hide PInv, Shape, Position, IssuedOk, HeadersOk, FlushOk, Promised, DInv, GcOk, SyncOk, RingOk;
  }

  /** Every run, every crash point. */
  lemma EveryRunRecovers(c: Setup, cfg: Config, base: u64, run: seq<St>, i: nat, dev: seq<Block>, d0: Image, d: Image)
    returns (m: nat)
    requires c.g.ring >= MAX_TOTAL_IO_SIZE && Run(c, base, run) && i < |run|
    requires c.g == cfg.g && ValidImage(c.g, dev) && |d0| == c.size
    requires CrashLog(c, cfg, run[i].l, dev) && CrashData(run[i], d0, d)
    requires run[i].nSuper <= |run[i].l.packs| && GoodPacks(c.g, Live(run[i])) && Detects(cfg, dev, Live(run[i]), run[i].l.latest)
    ensures Recovered(run[i], d0, d, RedoLog(cfg, dev, run[i].super), m)
  {
    hide PInv, ValidImage, CrashLog, CrashData, Live, GoodPacks, Detects, RedoLog, Recovered, Run;
    RunInv(c, base, run, i);
    m := CrashRecovery(c, cfg, run[i], dev, d0, d);
  }

  /** The same for every run, with the exact condition in place of the assumption
      on what lies behind the end of the log. */
  lemma EveryRunRecoversExactly(c: Setup, cfg: Config, base: u64, run: seq<St>, i: nat, dev: seq<Block>, d0: Image, d: Image)
    requires c.g.ring >= MAX_TOTAL_IO_SIZE && Run(c, base, run) && i < |run|
    requires c.g == cfg.g && ValidImage(c.g, dev) && |d0| == c.size
    requires CrashLog(c, cfg, run[i].l, dev) && CrashData(run[i], d0, d)
    requires run[i].nSuper <= |run[i].l.packs| && GoodPacks(c.g, Live(run[i])) && DetectsInside(cfg, dev, Live(run[i]))
    ensures var o := RedoLog(cfg, dev, run[i].super);
      && ((exists m: nat :: Recovered(run[i], d0, d, o, m)) <==> o.next <= run[i].l.latest)
      && (o.next > run[i].l.latest ==> GoesOn(cfg, dev, run[i].l.latest))
      && (AllIntact(cfg, dev, Live(run[i]), |Live(run[i])|) ==>
            (o.next == run[i].l.latest <==> !GoesOn(cfg, dev, run[i].l.latest)))
  {
    hide PInv, ValidImage, CrashLog, CrashData, Live, GoodPacks, DetectsInside, RedoLog, Recovered, Run, AllIntact, GoesOn;
    RunInv(c, base, run, i);
    CrashRecoveryExact(c, cfg, run[i], dev, d0, d);
    if AllIntact(cfg, dev, Live(run[i]), |Live(run[i])|) {
      SizeSame(run[i], d0, d);
      IntactLive(c, cfg, run[i], dev, d);
    }
  }

  lemma IntactLive(c: Setup, cfg: Config, s: St, dev: seq<Block>, d: Image)
    requires c.g == cfg.g && ValidImage(c.g, dev) && PInv(c, s) && |d| == c.size
    requires s.nSuper <= |s.l.packs| && GoodPacks(c.g, Live(s)) && AllIntact(cfg, dev, Live(s), |Live(s)|)
    ensures RedoLog(cfg, dev, s.super).next == s.l.latest <==> !GoesOn(cfg, dev, s.l.latest)
  {
    hide PInv, ValidImage, Live, GoodPacks, RedoLog, DInv, GcOk, RingOk, SyncOk, Inv, AllIntact, GoesOn, Passes;
    hide Shape, Promised, AllLogged, CountBefore, Chained, AllFit, WritesOf;
    PInvParts(c, s);
    LiveLog(c, s);
    LiveFits(s.l.writes, CountBefore(c, s.l, s.nSuper), c.size);
    IntactReplay(cfg, dev, Live(s), s.super, s.l.latest, d);
  }

  // ------------------------------------------------------- crash upon crash

  /** Some write that fits the device covers the sector. */
  ghost predicate Touched(ws: seq<Write>, size: nat, x: nat) {
    exists i :: 0 <= i < |ws| && Fits(ws[i], size) && Covers(ws[i], x)
  }

  lemma {:induction false} ApplyAgrees(d: Image, e: Image, ws: seq<Write>, x: nat)
    requires |d| == |e| && x < |d| && (d[x] == e[x] || Touched(ws, |d|, x))
    ensures Apply(d, ws)[x] == Apply(e, ws)[x]
    decreases |ws|
  {
    if ws != [] {
      var n := |ws| - 1;
      if !(Fits(ws[n], |d|) && Covers(ws[n], x)) {
        if d[x] != e[x] {
          var i :| 0 <= i < |ws| && Fits(ws[i], |d|) && Covers(ws[i], x);
          assert ws[..n][i] == ws[i];
        }
        ApplyAgrees(d, e, ws[..n], x);
      }
    }
  }

  /** A crash during replay. Replay had made some of its writes, in part or in
      whole and in any order, and may already have rewritten the header of the
      pack it stopped in; running it again gives what it would have given. */
  lemma CrashDuringRedo(cfg: Config, dev: seq<Block>, ps: seq<Pack>, start: nat, end: nat, d: Image, d2: Image)
    requires ValidImage(cfg.g, dev) && GoodPacks(cfg.g, ps) && Chained(ps, start, end) && Detects(cfg, dev, ps, end)
    requires end <= start + cfg.g.ring
    requires var o := RedoLog(cfg, dev, start); o.dev == dev || !Accepts(cfg, o.dev, o.next)
    requires |d2| == |d|
    requires forall x | 0 <= x < |d| :: d2[x] == d[x] || Touched(Writes(RedoLog(cfg, dev, start).ios), |d|, x)
    ensures var o := RedoLog(cfg, dev, start); var again := RedoLog(cfg, o.dev, start);
      again == o && Apply(d2, Writes(again.ios)) == Apply(d, Writes(o.ios))
  {
    hide ValidImage, GoodPacks, Chained, Detects, RedoLog, Accepts, Touched, Apply, Repeats;
    RedoAgain(cfg, dev, ps, start, end);
    RepeatsMeans(cfg, dev, start);
    var ws := Writes(RedoLog(cfg, dev, start).ios);
    hide Writes;
    forall x | 0 <= x < |d| ensures Apply(d2, ws)[x] == Apply(d, ws)[x] {
      ApplyAgrees(d2, d, ws, x);
    }
  }
}
