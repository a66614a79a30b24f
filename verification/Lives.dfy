/** Life after life of a device: runs of the pipeline that each start where the
    replay of the crash before ended, on the log device which that replay left. */
module Lives {
  import opened Words
  import opened LogRecord
  import opened Logpack
  import opened WritePack
  import opened Disk
  import opened LogDevice
  import opened Redo
  import opened RoundTrip
  import opened Recovery
  import opened Submit
  import opened Restart
  import opened LogSide
  import opened Promises
  import opened DataSide
  import opened Pipeline
  import opened Crash

  // ----------------------------------------------- what a life finds and leaves

  /** Block `m` of pack `i` stands in its place on the log device. */
  ghost predicate Stands(c: Setup, cfg: Config, l: LogSt, dev: seq<Block>, i: nat, m: nat)
    requires cfg.g == c.g && ValidImage(c.g, dev)
  {
    && i < l.nSub <= |l.packs| && HasBlock(c.g, l.packs[i].p, m)
    && |l.packs[i].p.header.records| <= MaxRecords(c.g.nLb) && BlockIntact(c.g, cfg.salt, dev, l.packs[i].p, m)
  }

  /** A place of the ring holds a block that was submitted to it. */
  ghost predicate OwnBlock(c: Setup, cfg: Config, l: LogSt, dev: seq<Block>, place: nat)
    requires cfg.g == c.g && ValidImage(c.g, dev)
  {
    exists i: nat, m: nat :: Stands(c, cfg, l, dev, i, m) && Slot(c.g, m) == place
  }

  /** A block is written as a whole or not at all: each place holds what it held
      when the life began or a block that was submitted to it since. */
  ghost predicate CarriedOver(c: Setup, cfg: Config, l: LogSt, was: seq<Block>, dev: seq<Block>)
    requires cfg.g == c.g && ValidImage(c.g, was) && ValidImage(c.g, dev)
  {
    forall place | 0 <= place < c.g.ring :: dev[place] == was[place] || OwnBlock(c, cfg, l, dev, place)
  }

  /** No block passes for a header of an lsid from `base` on. */
  ghost predicate Clean(c: Config, dev: seq<Block>, base: nat)
    requires ValidImage(c.g, dev)
  {
    forall x: nat | base <= x :: !Accepts(c, dev, x)
  }

  /** No data block of this life passes for a header. */
  ghost predicate NoForgery(c: Setup, cfg: Config, l: LogSt, dev: seq<Block>)
    requires cfg.g == c.g && ValidImage(c.g, dev)
  {
    forall i: nat, m: nat, x: nat |
      Stands(c, cfg, l, dev, i, m) && m != l.packs[i].p.header.lsid && Slot(c.g, x) == Slot(c.g, m) && l.base <= x ::
      !Accepts(cfg, dev, x)
  }

  /** All that is left to the strength of the checksum: data of the live log that is
      not a request's does not have its checksum, and no data passes for a header. */
  ghost predicate ChecksumsHold(c: Setup, cfg: Config, s: St, dev: seq<Block>)
    requires cfg.g == c.g && ValidImage(c.g, dev)
  {
    && NoForgery(c, cfg, s.l, dev)
    && s.nSuper <= |s.l.packs| && forall i | 0 <= i < |Live(s)| :: PackDetects(cfg, dev, Live(s)[i])
  }

  // --------------------------------------------- which headers the device holds

  lemma SameBlockAccepts(c: Config, was: seq<Block>, dev: seq<Block>, x: nat)
    requires ValidImage(c.g, was) && ValidImage(c.g, dev) && dev[Slot(c.g, x)] == was[Slot(c.g, x)]
    ensures Accepts(c, dev, x) == Accepts(c, was, x)
  {
  }

  /** A header block is a header of its own lsid only. */
  lemma HeaderOfItself(c: Config, dev: seq<Block>, p: Pack, x: nat)
    requires ValidImage(c.g, dev) && PackOk(c.g, p) && p.header.records != []
    requires |p.header.records| <= MaxRecords(c.g.nLb) && Slot(c.g, x) == Slot(c.g, p.header.lsid)
    requires dev[Slot(c.g, p.header.lsid)] == HeaderBlock(c.g, SealPack(c.g, c.salt, p))
    ensures Accepts(c, dev, x) <==> x == p.header.lsid
  {
    IntactHeaderAccepted(c, dev, p);
    hide PackOk, HeaderBlock, ValidBlock, ValidImage;
  }

  /** Pack `j` of this life has its header on the device. */
  ghost predicate HeaderStands(c: Setup, cfg: Config, l: LogSt, dev: seq<Block>, j: nat)
    requires cfg.g == c.g && ValidImage(c.g, dev)
  {
    && j < l.nSub <= |l.packs| && l.packs[j].p.header.records != []
    && |l.packs[j].p.header.records| <= MaxRecords(c.g.nLb)
    && dev[Slot(c.g, l.packs[j].p.header.lsid)] == HeaderBlock(c.g, SealPack(c.g, cfg.salt, l.packs[j].p))
  }

  lemma GoodPack(c: Setup, l: LogSt, i: nat)
    requires Shape(c, l) && i < |l.packs|
    ensures PackOk(c.g, l.packs[i].p) && NoDiscards(l.packs[i].p)
  {
    assert Packs(l)[i] == l.packs[i].p;
    hide PackOk, NoDiscards, Chained, AllLogged, AllFit;
  }

  /** On a clean device every accepted header is one of this life. */
  lemma AcceptedIsOwn(c: Setup, cfg: Config, l: LogSt, was: seq<Block>, dev: seq<Block>, x: nat) returns (j: nat)
    requires cfg.g == c.g && ValidImage(c.g, was) && ValidImage(c.g, dev) && Shape(c, l)
    requires CarriedOver(c, cfg, l, was, dev) && Clean(cfg, was, l.base) && NoForgery(c, cfg, l, dev)
    requires l.base <= x && Accepts(cfg, dev, x)
    ensures HeaderStands(c, cfg, l, dev, j) && l.packs[j].p.header.lsid == x
  {
    hide Shape, Accepts, HasBlock, SealPack, HeaderBlock;
    if dev[Slot(c.g, x)] == was[Slot(c.g, x)] {
      SameBlockAccepts(cfg, was, dev, x);
      assert false;
    }
    assert OwnBlock(c, cfg, l, dev, Slot(c.g, x));
    var i: nat, m: nat :| Stands(c, cfg, l, dev, i, m) && Slot(c.g, m) == Slot(c.g, x);
    assert m == l.packs[i].p.header.lsid;
    GoodPack(c, l, i);
    HasHeader(c.g, l.packs[i].p, m);
    HeaderOfItself(cfg, dev, l.packs[i].p, x);
    j := i;
  }

  lemma HasHeader(g: Geometry, p: Pack, m: nat)
    requires HasBlock(g, p, m)
    ensures p.header.records != []
  {
  }

  lemma SameStart(c: Setup, l: LogSt, i: nat, j: nat)
    requires Shape(c, l) && i < |l.packs| && j < |l.packs|
    requires l.packs[i].p.header.records != [] && l.packs[j].p.header.records != []
    requires l.packs[i].p.header.lsid == l.packs[j].p.header.lsid
    ensures i == j
  {
    ShapeFacts(c, l);
    GoodPack(c, l, i);
    GoodPack(c, l, j);
    hide Shape, PackOk, NoDiscards, GoodPacks, AllLogged, AllFit, NextLsid, Chained;
    AboutPack(c.g, l.packs[i].p);
    AboutPack(c.g, l.packs[j].p);
    PackStarts(Packs(l), l.base, l.latest, i);
    PackStarts(Packs(l), l.base, l.latest, j);
    assert Packs(l)[i] == l.packs[i].p && Packs(l)[j] == l.packs[j].p;
  }

  lemma StartsBefore(c: Setup, l: LogSt, j: nat)
    requires Shape(c, l) && j < |l.packs| && l.packs[j].p.header.records != []
    ensures l.base <= l.packs[j].p.header.lsid < l.latest
  {
    ShapeFacts(c, l);
    GoodPack(c, l, j);
    hide Shape, PackOk, NoDiscards, GoodPacks, AllLogged, AllFit, NextLsid, Chained;
    AboutPack(c.g, l.packs[j].p);
    PackStarts(Packs(l), l.base, l.latest, j);
    assert Packs(l)[j] == l.packs[j].p;
  }

  // ------------------------------------------------- a clean device is enough

  lemma LiveHeader(c: Setup, cfg: Config, s: St, was: seq<Block>, dev: seq<Block>, i: nat)
    requires cfg.g == c.g && ValidImage(c.g, was) && ValidImage(c.g, dev) && Shape(c, s.l) && s.nSuper <= |s.l.packs|
    requires CarriedOver(c, cfg, s.l, was, dev) && Clean(cfg, was, s.l.base) && NoForgery(c, cfg, s.l, dev)
    requires i < |Live(s)| && Live(s)[i].header.records != [] && Accepts(cfg, dev, Live(s)[i].header.lsid)
    ensures |Live(s)[i].header.records| <= MaxRecords(c.g.nLb)
    ensures dev[Slot(c.g, Live(s)[i].header.lsid)] == HeaderBlock(c.g, SealPack(c.g, cfg.salt, Live(s)[i]))
  {
    hide Shape, Accepts, ValidImage, CarriedOver, Clean, NoForgery, HeaderBlock, SealPack;
    assert Live(s)[i] == s.l.packs[s.nSuper + i].p;
    StartsBefore(c, s.l, s.nSuper + i);
    var j := AcceptedIsOwn(c, cfg, s.l, was, dev, Live(s)[i].header.lsid);
    SameStart(c, s.l, s.nSuper + i, j);
  }

  lemma EndIsClean(c: Setup, cfg: Config, l: LogSt, was: seq<Block>, dev: seq<Block>)
    requires cfg.g == c.g && ValidImage(c.g, was) && ValidImage(c.g, dev) && Shape(c, l)
    requires CarriedOver(c, cfg, l, was, dev) && Clean(cfg, was, l.base) && NoForgery(c, cfg, l, dev)
    ensures !Accepts(cfg, dev, l.latest)
  {
    StartMono(c, l, 0, |l.packs|);
    hide Shape, Accepts, ValidImage, CarriedOver, Clean, NoForgery;
    if Accepts(cfg, dev, l.latest) {
      var j := AcceptedIsOwn(c, cfg, l, was, dev, l.latest);
      StartsBefore(c, l, j);
    }
  }

  /** The headers of the live log, all at once. */
  ghost predicate HeadersTrue(c: Config, dev: seq<Block>, ps: seq<Pack>)
    requires ValidImage(c.g, dev)
  {
    forall i | 0 <= i < |ps| && ps[i].header.records != [] && Accepts(c, dev, ps[i].header.lsid) ::
      |ps[i].header.records| <= MaxRecords(c.g.nLb)
      && dev[Slot(c.g, ps[i].header.lsid)] == HeaderBlock(c.g, SealPack(c.g, c.salt, ps[i]))
  }

  lemma LiveHeaders(c: Setup, cfg: Config, s: St, was: seq<Block>, dev: seq<Block>)
    requires cfg.g == c.g && ValidImage(c.g, was) && ValidImage(c.g, dev) && Shape(c, s.l) && s.nSuper <= |s.l.packs|
    requires CarriedOver(c, cfg, s.l, was, dev) && Clean(cfg, was, s.l.base) && NoForgery(c, cfg, s.l, dev)
    ensures HeadersTrue(cfg, dev, Live(s))
  {
    hide Shape, Accepts, CarriedOver, Clean, NoForgery, HeaderBlock, SealPack, Live;
    forall i | 0 <= i < |Live(s)| && Live(s)[i].header.records != [] && Accepts(cfg, dev, Live(s)[i].header.lsid)
      ensures |Live(s)[i].header.records| <= MaxRecords(c.g.nLb)
      ensures dev[Slot(c.g, Live(s)[i].header.lsid)] == HeaderBlock(c.g, SealPack(c.g, cfg.salt, Live(s)[i]))
    {
      LiveHeader(c, cfg, s, was, dev, i);
    }
  }

  lemma InsideFrom(c: Config, dev: seq<Block>, ps: seq<Pack>)
    requires ValidImage(c.g, dev) && GoodPacks(c.g, ps) && HeadersTrue(c, dev, ps)
    requires forall i | 0 <= i < |ps| :: PackDetects(c, dev, ps[i])
    ensures DetectsInside(c, dev, ps)
  {
    hide GoodPacks, PackDetects, Accepts, HeaderBlock, SealPack;
  }

  /** What replay needs to know of the device follows from a clean device at the
      start of the life and the strength of the checksum alone. */
  lemma CleanDetects(c: Setup, cfg: Config, s: St, was: seq<Block>, dev: seq<Block>)
    requires cfg.g == c.g && ValidImage(c.g, was) && ValidImage(c.g, dev) && PInv(c, s)
    requires CarriedOver(c, cfg, s.l, was, dev) && Clean(cfg, was, s.l.base) && ChecksumsHold(c, cfg, s, dev)
    ensures s.nSuper <= |s.l.packs| && GoodPacks(c.g, Live(s)) && Detects(cfg, dev, Live(s), s.l.latest)
  {
    PInvParts(c, s);
    LiveLog(c, s);
    hide PInv, Inv, Shape, Promised, DInv, GcOk, SyncOk, RingOk, Accepts, ValidImage, CarriedOver, Clean, NoForgery, HeaderBlock, SealPack;
    hide GoodPacks, PackDetects, Live, Chained, AllLogged, AllFit, CountBefore, HeadersTrue, DetectsInside;
    EndIsClean(c, cfg, s.l, was, dev);
    LiveHeaders(c, cfg, s, was, dev);
    InsideFrom(cfg, dev, Live(s));
    DetectsParts(cfg, dev, Live(s), s.l.latest);
  }

  // ------------------------------------------ what a life leaves to the next one

  /** Replay adds no header behind its end. */
  lemma {:induction false} NoNewHeader(c: Config, dev: seq<Block>, lsid: nat, x: nat)
    requires ValidImage(c.g, dev)
    requires x >= RedoLog(c, dev, lsid).next && Accepts(c, RedoLog(c, dev, lsid).dev, x)
    ensures Accepts(c, dev, x)
    decreases U64_SIZE - lsid
  {
    if lsid < MAX_LSID && Accepts(c, dev, lsid) {
      var h := HeaderAt(c, dev, lsid);
      var o := RedoPack(c, dev, h);
      if o.stop {
        CutIsBelow(c, dev, h, x);
      } else {
        NoNewHeader(c, dev, o.next, x);
      }
    }
  }

  lemma CutIsBelow(c: Config, dev: seq<Block>, h: Header, x: nat)
    requires ValidImage(c.g, dev) && |h.records| <= MaxRecords(c.g.nLb)
    requires x >= RedoPack(c, dev, h).next && Accepts(c, RedoPack(c, dev, h).dev, x)
    ensures Accepts(c, dev, x)
  {
    var n := RedoRecords(c, h.records, 0, PackBlocks(c, dev, h.lsid, h.total)).good;
    hide RedoRecords, PackBlocks, ValidBlock;
    if 0 < n < |h.records| {
      var t := Truncated(c, h, n);
      var s := Sealed(c.g.nLb, c.salt, t);
      HeaderRoundTrip(c.g.nLb, s);
      FlattenChop(Encode(c.g.nLb, s), c.g.nLb);
      assert Decode(c.g.nLb, BlockWords(c.g, HeaderBlock(c.g, s))).lsid == h.lsid < x;
      hide Truncated, Sealed, HeaderBlock, Decode, Encode;
    }
  }

  /** A place behind the end of replay is not touched by it. */
  lemma BehindUntouched(c: Config, dev: seq<Block>, lsid: nat, x: nat)
    requires ValidImage(c.g, dev) && RedoLog(c, dev, lsid).next <= x < lsid + c.g.ring
    ensures RedoLog(c, dev, lsid).dev[Slot(c.g, x)] == dev[Slot(c.g, x)]
  {
    RedoOnlySlots(c, dev, lsid);
    RedoForward(c, dev, lsid);
    hide RedoLog;
    forall m | lsid <= m < RedoLog(c, dev, lsid).next ensures Slot(c.g, m) != Slot(c.g, x) {
      SlotInjective(c.g, m, x);
    }
  }

  /** The blocks of a submitted pack lie less than a ring length behind the superblock. */
  lemma SubmittedNear(c: Setup, s: St, j: nat)
    requires PInv(c, s) && j < s.l.nSub <= |s.l.packs| && s.l.packs[j].p.header.records != []
    ensures s.l.packs[j].p.header.lsid < s.super + c.g.ring
  {
    PInvParts(c, s);
    hide PInv, Inv, Shape, Promised, DInv, SyncOk, HitBy, CountBefore;
    LogParts(c, s);
    SuperStart(c, s);
    hide Position, GcOk;
    assert s.l.packs[j].p.header.lsid in BlocksOf(c.g, s.l.packs[j].p);
  }

  /** When a life leaves the device clean for the next one: if and only if none of
      its own headers stands at or behind the lsid where replay ended. */
  lemma CleanExactly(c: Setup, cfg: Config, s: St, was: seq<Block>, dev: seq<Block>)
    requires cfg.g == c.g && ValidImage(c.g, was) && ValidImage(c.g, dev) && PInv(c, s)
    requires CarriedOver(c, cfg, s.l, was, dev) && Clean(cfg, was, s.l.base) && NoForgery(c, cfg, s.l, dev)
    ensures var o := RedoLog(cfg, dev, s.super);
      Clean(cfg, o.dev, o.next) <==> forall j: nat | HeaderStands(c, cfg, s.l, dev, j) :: s.l.packs[j].p.header.lsid < o.next
  {
    PInvParts(c, s);
    SuperStart(c, s);
    SuperAboveBase(c, s);
    hide PInv, Inv, Shape, Promised, DInv, GcOk, SyncOk, RingOk, Accepts, ValidImage, CarriedOver, NoForgery, RedoLog;
    var o := RedoLog(cfg, dev, s.super);
    RedoForward(cfg, dev, s.super);
    if forall j: nat | HeaderStands(c, cfg, s.l, dev, j) :: s.l.packs[j].p.header.lsid < o.next {
      forall x: nat | o.next <= x ensures !Accepts(cfg, o.dev, x) {
        if Accepts(cfg, o.dev, x) {
          NoNewHeader(cfg, dev, s.super, x);
          var j := AcceptedIsOwn(c, cfg, s.l, was, dev, x);
        }
      }
    } else {
      var j: nat :| HeaderStands(c, cfg, s.l, dev, j) && o.next <= s.l.packs[j].p.header.lsid;
      StandingAccepted(c, cfg, s, dev, j);
    }
  }

  lemma SuperAboveBase(c: Setup, s: St)
    requires PInv(c, s)
    ensures s.l.base <= s.super
  {
    PInvParts(c, s);
    SuperStart(c, s);
    hide PInv, Inv, Shape, Promised, DInv, GcOk, SyncOk, RingOk, StartOf;
    StartMono(c, s.l, 0, s.nSuper);
    StartMono(c, s.l, s.nSuper, |s.l.packs|);
  }

  lemma StandingAccepted(c: Setup, cfg: Config, s: St, dev: seq<Block>, j: nat)
    requires cfg.g == c.g && ValidImage(c.g, dev) && PInv(c, s) && HeaderStands(c, cfg, s.l, dev, j)
    requires RedoLog(cfg, dev, s.super).next <= s.l.packs[j].p.header.lsid
    ensures Accepts(cfg, RedoLog(cfg, dev, s.super).dev, s.l.packs[j].p.header.lsid)
  {
    PInvParts(c, s);
    GoodPack(c, s.l, j);
    hide PInv, Inv, Shape, Promised, DInv, GcOk, SyncOk, RingOk, Accepts, ValidImage, RedoLog, SealPack, HeaderBlock, PackOk;
    var x := s.l.packs[j].p.header.lsid;
    SubmittedNear(c, s, j);
    BehindUntouched(cfg, dev, s.super, x);
    HeaderOfItself(cfg, dev, s.l.packs[j].p, x);
    SameBlockAccepts(cfg, dev, RedoLog(cfg, dev, s.super).dev, x);
  }

  // ------------------------------------------------------------ life after life

  /** Between two lives: where logging resumes, and both devices. */
  datatype Disks = Disks(base: nat, log: seq<Block>, data: Image)

  /** A life: the states of its run up to the crash, and what the crash left. */
  datatype Life = Life(run: seq<St>, log: seq<Block>, data: Image)

  function Crashed(life: Life): St
    requires life.run != []
  {
    life.run[|life.run| - 1]
  }

  /** What replay does after the life. */
  function ReplayOf(cfg: Config, life: Life): Outcome
    requires life.run != [] && ValidImage(cfg.g, life.log)
  {
    RedoLog(cfg, life.log, Crashed(life).super)
  }

  /** One life from `before` on: a run of the pipeline, a crash at its end, the
      replay, and the disks and the lsid that the next life starts from. */
  ghost predicate Lived(c: Setup, cfg: Config, before: Disks, life: Life, after: Disks) {
    && cfg.g == c.g && before.base < U64_SIZE && Run(c, before.base, life.run)
    && ValidImage(c.g, before.log) && |before.data| == c.size && ValidImage(c.g, life.log)
    && CarriedOver(c, cfg, Crashed(life).l, before.log, life.log)
    && CrashLog(c, cfg, Crashed(life).l, life.log) && CrashData(Crashed(life), before.data, life.data)
    && var o := ReplayOf(cfg, life);
       after == Disks(o.next, o.dev, Apply(life.data, Writes(o.ios)))
  }

  /** Any number of lives in a row, with the disks between them. */
  ghost predicate InARow(c: Setup, cfg: Config, disks: seq<Disks>, lives: seq<Life>) {
    |disks| == |lives| + 1 && forall i | 0 <= i < |lives| :: Lived(c, cfg, disks[i], lives[i], disks[i + 1])
  }

  lemma BaseStays(c: Setup, s: St, p: PStep)
    requires Can(c, s, p)
    ensures Do(c, s, p).l.base == s.l.base
  {
    hide DNext, DEnabled, PendInsert;
  }

  lemma {:induction false} RunBase(c: Setup, base: u64, run: seq<St>, i: nat)
    requires Run(c, base, run) && i < |run|
    ensures run[i].l.base == base
    decreases i
  {
    hide Can, Do;
    if i > 0 {
      RunBase(c, base, run, i - 1);
      assert OneStep(c, run[i - 1], run[i]);
      var p :| Follows(c, run[i - 1], run[i], p);
      BaseStays(c, run[i - 1], p);
    }
  }

  /** No header of an lsid that is still to come is on the log device. */
  ghost predicate CleanStart(cfg: Config, at: Disks) {
    ValidImage(cfg.g, at.log) && Clean(cfg, at.log, at.base)
  }

  /** The checksums hold on what the crash left of the log device. */
  ghost predicate SoundCrash(c: Setup, cfg: Config, life: Life) {
    && life.run != [] && cfg.g == c.g && ValidImage(cfg.g, life.log)
    && ChecksumsHold(c, cfg, Crashed(life), life.log)
  }

  /** Replay recovers the life and keeps its first `m` writes. */
  ghost predicate LifeRecovered(cfg: Config, before: Disks, life: Life, after: Disks, m: nat) {
    && life.run != [] && ValidImage(cfg.g, life.log)
    && Recovered(Crashed(life), before.data, life.data, ReplayOf(cfg, life), m)
    && after.data == Apply(before.data, LifeWrites(life, m))
  }

  /** None of the life's own headers stands where logging is to go on or behind it. */
  ghost predicate NoneLeft(c: Setup, cfg: Config, life: Life, after: Disks) {
    && life.run != [] && cfg.g == c.g && ValidImage(cfg.g, life.log)
    && forall j: nat | HeaderStands(c, cfg, Crashed(life).l, life.log, j) :: Crashed(life).l.packs[j].p.header.lsid < after.base
  }

  function LifeWrites(life: Life, m: nat): seq<Write> {
    if life.run == [] then [] else WritesIn(Crashed(life).l.writes, Min(m, |Crashed(life).l.writes|))
  }

  /** One life on a clean device: replay recovers it. It leaves a clean device if
      and only if none of its headers is left where logging goes on, which is so
      whenever replay gets to the end of the log. */
  lemma OneLife(c: Setup, cfg: Config, before: Disks, life: Life, after: Disks) returns (m: nat)
    requires c.g.ring >= MAX_TOTAL_IO_SIZE && Lived(c, cfg, before, life, after)
    requires CleanStart(cfg, before) && SoundCrash(c, cfg, life)
    ensures LifeRecovered(cfg, before, life, after, m)
    ensures CleanStart(cfg, after) <==> NoneLeft(c, cfg, life, after)
    ensures after.base == Crashed(life).l.latest ==> CleanStart(cfg, after)
  {
    hide CarriedOver, CrashLog, CrashData, Clean, ChecksumsHold, PInv, Recovered, ValidImage, RedoLog, HeaderStands, Detects, GoodPacks, Live;
    var i: nat := |life.run| - 1;
    hide Run;
    RunInv(c, before.base, life.run, i);
    RunBase(c, before.base, life.run, i);
    CleanDetects(c, cfg, Crashed(life), before.log, life.log);
    m := EveryRunRecovers(c, cfg, before.base, life.run, i, life.log, before.data, life.data);
    ImageOf(Crashed(life), before.data, life.data, ReplayOf(cfg, life), m);
    ForgeryPart(c, cfg, Crashed(life), life.log);
    CleanExactly(c, cfg, Crashed(life), before.log, life.log);
    if after.base == Crashed(life).l.latest {
      AllBefore(c, cfg, Crashed(life), life.log);
    }
  }

  lemma AllBefore(c: Setup, cfg: Config, s: St, dev: seq<Block>)
    requires cfg.g == c.g && ValidImage(c.g, dev) && PInv(c, s)
    ensures forall j: nat | HeaderStands(c, cfg, s.l, dev, j) :: s.l.packs[j].p.header.lsid < s.l.latest
  {
    PInvParts(c, s);
    hide PInv, Inv, Shape, Promised, DInv, GcOk, SyncOk, RingOk, HeaderBlock, SealPack, ValidImage;
    forall j: nat | HeaderStands(c, cfg, s.l, dev, j) ensures s.l.packs[j].p.header.lsid < s.l.latest {
      StartsBefore(c, s.l, j);
    }
  }

  lemma ImageOf(s: St, d0: Image, d: Image, o: Outcome, m: nat)
    requires Recovered(s, d0, d, o, m)
    ensures m <= |s.l.writes| && Apply(d, Writes(o.ios)) == Apply(d0, WritesIn(s.l.writes, m))
  {
    hide FlushSurvives, Apply, Writes;
  }

  lemma ForgeryPart(c: Setup, cfg: Config, s: St, dev: seq<Block>)
    requires cfg.g == c.g && ValidImage(c.g, dev) && ChecksumsHold(c, cfg, s, dev)
    ensures NoForgery(c, cfg, s.l, dev)
  {
  }

  /** The writes that the lives kept, in order. */
  function KeptWrites(lives: seq<Life>, kept: seq<nat>): seq<Write>
    requires |kept| == |lives|
    decreases |lives|
  {
    if lives == [] then []
    else
      var n := |lives| - 1;
      KeptWrites(lives[..n], kept[..n]) + LifeWrites(lives[n], kept[n])
  }

  lemma KeptLast(lives: seq<Life>, life: Life, kept: seq<nat>, m: nat)
    requires |kept| == |lives|
    ensures KeptWrites(lives + [life], kept + [m]) == KeptWrites(lives, kept) + LifeWrites(life, m)
  {
    hide LifeWrites;
    assert (lives + [life])[..|lives|] == lives && (kept + [m])[..|kept|] == kept;
  }

  /** Lives in a row, each on a clean device. */
  ghost predicate CleanRow(c: Setup, cfg: Config, disks: seq<Disks>, lives: seq<Life>) {
    InARow(c, cfg, disks, lives) && forall i | 0 <= i < |lives| :: CleanStart(cfg, disks[i]) && SoundCrash(c, cfg, lives[i])
  }

  /** Every replay recovers its life. */
  ghost predicate AllRecovered(cfg: Config, disks: seq<Disks>, lives: seq<Life>, kept: seq<nat>) {
    && |kept| == |lives| < |disks|
    && forall i | 0 <= i < |lives| :: LifeRecovered(cfg, disks[i], lives[i], disks[i + 1], kept[i])
  }

  lemma RowPrefix(c: Setup, cfg: Config, disks: seq<Disks>, lives: seq<Life>, n: nat)
    requires CleanRow(c, cfg, disks, lives) && n + 1 == |lives|
    ensures CleanRow(c, cfg, disks[..n + 1], lives[..n])
    ensures Lived(c, cfg, disks[n], lives[n], disks[n + 1]) && CleanStart(cfg, disks[n]) && SoundCrash(c, cfg, lives[n])
  {
    hide Lived, CleanStart, SoundCrash;
  }

  lemma RecoveredMore(cfg: Config, disks: seq<Disks>, lives: seq<Life>, n: nat, kept: seq<nat>, m: nat)
    requires n + 1 == |lives| < |disks| && AllRecovered(cfg, disks[..n + 1], lives[..n], kept)
    requires LifeRecovered(cfg, disks[n], lives[n], disks[n + 1], m)
    ensures AllRecovered(cfg, disks, lives, kept + [m])
  {
    hide LifeRecovered;
  }

  /** Any number of lives in a row, each of which finds a clean device: every replay
      recovers its life, and in the end the data device holds exactly the kept
      writes of all lives, in order, on top of the first image. */
  lemma {:induction false} LivesAddUp(c: Setup, cfg: Config, disks: seq<Disks>, lives: seq<Life>) returns (kept: seq<nat>)
    requires c.g.ring >= MAX_TOTAL_IO_SIZE && CleanRow(c, cfg, disks, lives)
    ensures AllRecovered(cfg, disks, lives, kept)
    ensures disks[|lives|].data == Apply(disks[0].data, KeptWrites(lives, kept))
    decreases |lives|
  {
    hide Lived, CleanStart, SoundCrash, Apply, LifeRecovered, LifeWrites;
    kept := [];
    if lives == [] {
      ApplyNothing(disks[0].data);
    } else {
      hide CleanRow, AllRecovered, KeptWrites;
      var n: nat := |lives| - 1;
      RowLength(c, cfg, disks, lives);
      RowPrefix(c, cfg, disks, lives, n);
      kept := LivesAddUp(c, cfg, disks[..n + 1], lives[..n]);
      KeptLength(cfg, disks[..n + 1], lives[..n], kept);
      var m := OneLife(c, cfg, disks[n], lives[n], disks[n + 1]);
      RecoveredMore(cfg, disks, lives, n, kept, m);
      KeptImage(cfg, disks[n], lives[n], disks[n + 1], m);
      ApplyConcat(disks[0].data, KeptWrites(lives[..n], kept), LifeWrites(lives[n], m));
      KeptLast(lives[..n], lives[n], kept, m);
      assert lives[..n] + [lives[n]] == lives;
      kept := kept + [m];
    }
  }

  lemma RowLength(c: Setup, cfg: Config, disks: seq<Disks>, lives: seq<Life>)
    requires CleanRow(c, cfg, disks, lives)
    ensures |disks| == |lives| + 1
  {
  }

  lemma KeptLength(cfg: Config, disks: seq<Disks>, lives: seq<Life>, kept: seq<nat>)
    requires AllRecovered(cfg, disks, lives, kept)
    ensures |kept| == |lives|
  {
  }

  lemma KeptImage(cfg: Config, before: Disks, life: Life, after: Disks, m: nat)
    requires LifeRecovered(cfg, before, life, after, m)
    ensures after.data == Apply(before.data, LifeWrites(life, m))
  {
  }

  /** A row of lives that begins on a clean device stays on clean devices as long as
      no life leaves a header of its own where logging goes on or behind. */
  lemma {:induction false} StaysClean(c: Setup, cfg: Config, disks: seq<Disks>, lives: seq<Life>, n: nat)
    requires c.g.ring >= MAX_TOTAL_IO_SIZE && InARow(c, cfg, disks, lives) && n < |disks| && CleanStart(cfg, disks[0])
    requires forall i | 0 <= i < |lives| :: SoundCrash(c, cfg, lives[i])
    requires forall i | 0 <= i < n :: NoneLeft(c, cfg, lives[i], disks[i + 1])
    ensures CleanStart(cfg, disks[n])
    decreases n
  {
    hide Lived, CleanStart, SoundCrash, NoneLeft;
    if n > 0 {
      StaysClean(c, cfg, disks, lives, n - 1);
      var m := OneLife(c, cfg, disks[n - 1], lives[n - 1], disks[n]);
    }
  }
}
