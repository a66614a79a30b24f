/** A header that an earlier life left behind the end of its log, and the life after
    it: module/redo.c invalidates nothing behind the lsid it ends at, and the salt of
    the checksums stays the same. */
module StaleHeader {
  import opened Words
  import opened Checksum
  import opened LogRecord
  import opened Logpack
  import opened WritePack
  import opened Disk
  import opened LogDevice
  import opened Redo
  import opened RoundTrip
  import opened Recovery
  import opened Submit
  import opened LogSide
  import opened DataSide
  import opened Pipeline
  import opened Crash
  import opened Lives
  import opened Counterexamples

  function Cfg(salt: u32): Config { Config(Small().g, salt, false) }

  // ------------------------------------------------------- one acknowledged write

  /** A request of `n` blocks fits at `base` without crossing the ring end. */
  predicate Placeable(base: u64, n: nat) {
    1 <= n <= 32768 && base + 3 * U16_SIZE < U64_SIZE && (base + 1) % RING + n <= RING
  }

  /** A FUA write of `n` sectors and its pack. */
  function Fua(base: u64, n: nat): Bio
    requires Placeable(base, n)
  {
    Request(0, n, false, true, base)
  }

  function FuaPack(base: u64, n: nat): Pack
    requires Placeable(base, n)
  {
    Pack(FirstHeader(base, Fua(base, n)), [Fua(base, n)], false, true)
  }

  function FuaEntry(base: u64, n: nat): Logged {
    Logged(Write(0, Bulk(n)), base + 1, n, true)
  }

  function FuaBlocks(base: u64, n: nat): set<nat> { {base} + Span(base + 1, base + 1 + n) }

  lemma FuaPacks(base: u64, n: nat)
    requires Placeable(base, n)
    ensures PackAll(Small().g, 0, base, [Fua(base, n)]) == Packing([FuaPack(base, n)], None, base + 1 + n, false)
  {
    hide Bulk;
    PackAllOne(Fua(base, n), base);
    PackOne([], base, Fua(base, n), false);
    assert [] + [FuaPack(base, n)] == [FuaPack(base, n)];
  }

  lemma FuaLogged(base: u64, n: nat)
    requires Placeable(base, n)
    ensures LoggedOf(Small().g, FuaPack(base, n)) == [FuaEntry(base, n)]
    ensures BlocksOf(Small().g, FuaPack(base, n)) == FuaBlocks(base, n)
    ensures NextLsid(FuaPack(base, n).header) == base + 1 + n
    ensures AllLogged(Small().g, [FuaPack(base, n)]) == [FuaEntry(base, n)]
  {
    hide Bulk;
    OneBlockEach(n);
    OneRequest(FuaPack(base, n).header.records[0]);
    AllLoggedOne(Small().g, FuaPack(base, n));
    hide NonPadding, AllLogged;
    OneRange(FuaEntry(base, n));
  }

  lemma OneRange(e: Logged)
    ensures Ranges([e]) == Span(e.lsid, End(e))
  {
    assert [e][..0] == [];
    assert Ranges([e]) == Ranges([e][..0]) + Span(e.lsid, End(e));
  }

  lemma FuaTaken(base: u64, n: nat)
    requires Placeable(base, n)
    ensures Acceptable(Small(), Fua(base, n))
  {
    OneBlockEach(n);
  }

  function Made(base: u64, n: nat): LogSt
    requires Placeable(base, n)
  {
    LogSide.Init(base).(packs := [LPack(FuaPack(base, n), false, Token(base, {}), 0)], latest := base + 1 + n,
                        writes := [FuaEntry(base, n)])
  }

  function At(base: u64, l: LogSt, pending: set<nat>): St { Start(base).(l := l, d := InitData().(pending := pending)) }

  lemma AfterMade(base: u64, n: nat)
    requires Placeable(base, n)
    ensures Reach(Small(), base, At(base, Made(base, n), {}))
  {
    ReachStart(Small(), base);
    FuaTaken(base, n);
    FuaPacks(base, n);
    FuaLogged(base, n);
    hide Reach, Bulk, PackAll, AllLogged, LoggedOf, BlocksOf, Acceptable;
    var s0, b := Start(base), Fua(base, n);
    var l := LogSide.Init(base).(queue := [b]);
    assert Next(Small(), base, s0.l, Push(b)) == l;
    LogStep(Small(), base, s0, Push(b));
    assert l.queue[..1] == [b] && l.queue[1..] == [];
    assert NewPacks(l, [FuaPack(base, n)], false) == [LPack(FuaPack(base, n), false, Token(base, {}), 0)];
    assert Next(Small(), base, l, Create(1, false)) == Made(base, n);
    LogStep(Small(), base, At(base, l, {}), Create(1, false));
  }

  function Written(base: u64, n: nat): LogSt
    requires Placeable(base, n)
  {
    Made(base, n).(nSub := 1, issued := FuaBlocks(base, n), hdrDone := {0}, done := FuaBlocks(base, n))
  }

  lemma AfterWritten(base: u64, n: nat)
    requires Placeable(base, n)
    ensures Reach(Small(), base, At(base, Written(base, n), {}))
  {
    AfterMade(base, n);
    FuaLogged(base, n);
    hide Reach, Bulk, BlocksOf, LoggedOf, AllLogged;
    var l, blocks := Made(base, n), FuaBlocks(base, n);
    var l1 := l.(nSub := 1, issued := blocks);
    assert l.issued + blocks == blocks;
    assert Next(Small(), base, l, SubmitNext) == l1;
    LogStep(Small(), base, At(base, l, {}), SubmitNext);
    var l2 := l1.(hdrDone := {0}, done := {base});
    assert l1.hdrDone + {0} == {0} && l1.done + {base} == {base};
    assert Next(Small(), base, l1, HeaderDone(0)) == l2;
    LogStep(Small(), base, At(base, l1, {}), HeaderDone(0));
    assert l2.done + blocks == blocks;
    assert Next(Small(), base, l2, BlocksDone(blocks)) == Written(base, n);
    LogStep(Small(), base, At(base, l2, {}), BlocksDone(blocks));
  }

  function Pended(base: u64, n: nat): LogSt
    requires Placeable(base, n)
  {
    Written(base, n).(phase := Inserted(0), edge := base + 1 + n, inserted := 1)
  }

  lemma AfterPended(base: u64, n: nat)
    requires Placeable(base, n)
    ensures Reach(Small(), base, At(base, Pended(base, n), {0}))
  {
    AfterWritten(base, n);
    FuaLogged(base, n);
    hide Reach, Bulk, BlocksOf, LoggedOf, AllLogged;
    var l := Written(base, n);
    var l1 := l.(phase := Ready(0), edge := base + 1);
    assert Next(Small(), base, l, BeginPack) == l1;
    LogStep(Small(), base, At(base, l, {}), BeginPack);
    assert Span(base + 1, base + 1 + n) <= FuaBlocks(base, n);
    assert Next(Small(), base, l1, InsertPending) == Pended(base, n);
    assert PendInsert(EnvOf(l1), InitData(), 0) == InitData().(pending := {0});
    ReachStep(Small(), base, At(base, l1, {}), Log(InsertPending));
  }

  function InFlush(base: u64, n: nat): LogSt
    requires Placeable(base, n)
  {
    Pended(base, n).(phase := Flushing(0, Token(base + 1 + n, FuaBlocks(base, n))), completed := base + 1 + n, flush := base + 1 + n)
  }

  lemma AfterInFlush(base: u64, n: nat)
    requires Placeable(base, n)
    ensures Reach(Small(), base, At(base, InFlush(base, n), {0}))
  {
    AfterPended(base, n);
    FuaLogged(base, n);
    hide Reach, Bulk, BlocksOf, LoggedOf, AllLogged;
    var l, end := Pended(base, n), base + 1 + n;
    var l1 := l.(phase := Marked(0), completed := end);
    assert Next(Small(), base, l, MarkFua) == l1;
    LogStep(Small(), base, At(base, l, {0}), MarkFua);
    assert Next(Small(), base, l1, StartFua) == InFlush(base, n);
    LogStep(Small(), base, At(base, l1, {0}), StartFua);
  }

  /** The write is durable and acknowledged, and nothing else is going on. */
  function Assured(base: u64, n: nat): LogSt
    requires Placeable(base, n)
  {
    var end := base + 1 + n;
    Written(base, n).(phase := Ready(1), edge := end, inserted := 1, acked := 1, completed := end, flush := end,
                      permanent := end, durable := FuaBlocks(base, n), fuaPromise := end)
  }

  lemma AfterAssured(base: u64, n: nat)
    requires Placeable(base, n)
    ensures Reach(Small(), base, At(base, Assured(base, n), {0}))
  {
    AfterInFlush(base, n);
    FuaLogged(base, n);
    hide Reach, Bulk, BlocksOf, LoggedOf, AllLogged;
    var l, end, blocks := InFlush(base, n), base + 1 + n, FuaBlocks(base, n);
    var l1 := l.(phase := LogSide.Flushed(0), durable := blocks, permanent := end);
    assert l.durable + blocks == blocks;
    assert Next(Small(), base, l, EndFua) == l1;
    LogStep(Small(), base, At(base, l, {0}), EndFua);
    assert Next(Small(), base, l1, Ack) == Assured(base, n);
    LogStep(Small(), base, At(base, l1, {0}), Ack);
  }

  // ----------------------------------------------------- what the crash leaves

  /** The log device with that pack in its place. */
  function Laid(salt: u32, base: u64, n: nat, was: seq<Block>): seq<Block>
    requires Placeable(base, n) && |was| == RING
  {
    var first := (base + 1) % RING;
    seq(RING, p requires 0 <= p < RING =>
      if p == Slot(Small().g, base) then HeaderBlock(Small().g, SealPack(Small().g, salt, FuaPack(base, n)))
      else if first <= p < first + n then Bulk(1)
      else was[p])
  }

  lemma HeaderSize(salt: u32, p: Pack)
    requires |p.header.records| <= MaxRecords(1)
    ensures |HeaderBlock(Small().g, SealPack(Small().g, salt, p))| == 1
  {
  }

  lemma LaidValid(salt: u32, base: u64, n: nat, was: seq<Block>)
    requires Placeable(base, n) && ValidImage(Small().g, was)
    ensures ValidImage(Small().g, Laid(salt, base, n, was))
  {
    hide HeaderBlock, SealPack;
    HeaderSize(salt, FuaPack(base, n));
    assert |Bulk(1)| == 1;
    hide Bulk, FuaPack;
  }

  lemma DataPlace(base: u64, n: nat, k: nat)
    requires Placeable(base, n) && k < n
    ensures Slot(Small().g, base + 1 + k) == (base + 1) % RING + k != Slot(Small().g, base)
  {
    DivBounds(base + 1, RING);
    DivUnique(base + 1 + k, RING, (base + 1) / RING);
    SlotInjective(Small().g, base, base + 1 + k);
  }

  lemma LaidAt(salt: u32, base: u64, n: nat, was: seq<Block>)
    requires Placeable(base, n) && ValidImage(Small().g, was)
    ensures var dev := Laid(salt, base, n, was);
      && dev[Slot(Small().g, base)] == HeaderBlock(Small().g, SealPack(Small().g, salt, FuaPack(base, n)))
      && forall l: nat | base < l < base + 1 + n :: dev[Slot(Small().g, l)] == Bulk(1)
  {
    hide HeaderBlock, SealPack, Bulk;
    forall l: nat | base < l < base + 1 + n ensures Laid(salt, base, n, was)[Slot(Small().g, l)] == Bulk(1) {
      DataPlace(base, n, l - base - 1);
    }
  }

  lemma BulkPiece(n: nat, k: nat)
    requires k < n
    ensures Piece(Small().g, Bulk(n), k) == Bulk(1)
  {
  }

  /** Block `m` of the pack is intact. */
  lemma LaidIntact(salt: u32, base: u64, n: nat, was: seq<Block>, m: nat)
    requires Placeable(base, n) && ValidImage(Small().g, was) && HasBlock(Small().g, FuaPack(base, n), m)
    ensures ValidImage(Small().g, Laid(salt, base, n, was))
    ensures |FuaPack(base, n).header.records| <= MaxRecords(1)
    ensures BlockIntact(Small().g, salt, Laid(salt, base, n, was), FuaPack(base, n), m)
  {
    LaidValid(salt, base, n, was);
    LaidAt(salt, base, n, was);
    FuaLogged(base, n);
    var dev := Laid(salt, base, n, was);
    hide HeaderBlock, SealPack, Bulk, LoggedOf, Laid, Piece, Slot, BlocksOf, AllLogged;
    if InRange(FuaEntry(base, n), m) {
      BulkPiece(n, m - (base + 1));
      assert dev[Slot(Small().g, m)] == Bulk(1);
    }
  }

  lemma FuaGood(base: u64, n: nat)
    requires Placeable(base, n)
    ensures GoodPacks(Small().g, [FuaPack(base, n)]) && Chained([FuaPack(base, n)], base, base + 1 + n)
  {
    FuaLogged(base, n);
    FuaPacks(base, n);
    OneBlockEach(n);
    hide Bulk, PackAll;
    PackAllOk(Small().g, 0, base, [Fua(base, n)]);
    assert FuaPack(base, n) in [FuaPack(base, n)];
  }

  lemma AllLaid(salt: u32, base: u64, n: nat, was: seq<Block>)
    requires Placeable(base, n) && ValidImage(Small().g, was)
    ensures ValidImage(Small().g, Laid(salt, base, n, was))
    ensures AllIntact(Cfg(salt), Laid(salt, base, n, was), [FuaPack(base, n)], 1)
  {
    LaidValid(salt, base, n, was);
    hide HeaderBlock, SealPack, Bulk, LoggedOf, Laid, HasBlock, BlockIntact, FuaPack;
    forall i, l: nat | 0 <= i < 1 && HasBlock(Small().g, [FuaPack(base, n)][i], l)
      ensures |FuaPack(base, n).header.records| <= MaxRecords(1)
      ensures BlockIntact(Small().g, salt, Laid(salt, base, n, was), FuaPack(base, n), l)
    {
      LaidIntact(salt, base, n, was, l);
    }
  }

  /** A block of zeros, or one of ones, is no header. */
  lemma NoHeader(c: Config, dev: seq<Block>, x: nat, v: u32)
    requires c.g.nLb == 1 && ValidImage(c.g, dev) && v < 2 && dev[Slot(c.g, x)] == [seq(SECTOR_WORDS, k => v)]
    ensures !Accepts(c, dev, x)
  {
    var b := dev[Slot(c.g, x)];
    assert b[..0] == [] && Flatten([]) == [];
    assert Flatten(b) == b[0];
    hide ChecksumOf;
  }

  // ------------------------------------------------------------------ the life

  lemma FuaBlock(base: u64, n: nat, m: nat)
    requires Placeable(base, n)
    ensures HasBlock(Small().g, FuaPack(base, n), m) <==> base <= m < base + 1 + n
  {
    FuaLogged(base, n);
    BlocksOfHas(Small().g, FuaPack(base, n), m);
    hide BlocksOf, HasBlock, LoggedOf, FuaPack;
  }

  lemma FuaStands(salt: u32, base: u64, n: nat, was: seq<Block>, m: nat)
    requires Placeable(base, n) && ValidImage(Small().g, was) && base <= m < base + 1 + n
    ensures ValidImage(Small().g, Laid(salt, base, n, was))
    ensures Stands(Small(), Cfg(salt), Assured(base, n), Laid(salt, base, n, was), 0, m)
  {
    FuaBlock(base, n, m);
    LaidIntact(salt, base, n, was, m);
    hide HasBlock, BlockIntact, Laid, FuaPack;
  }

  lemma FuaCarried(salt: u32, base: u64, n: nat, was: seq<Block>)
    requires Placeable(base, n) && ValidImage(Small().g, was)
    ensures ValidImage(Small().g, Laid(salt, base, n, was))
    ensures CarriedOver(Small(), Cfg(salt), Assured(base, n), was, Laid(salt, base, n, was))
  {
    LaidValid(salt, base, n, was);
    var dev, first := Laid(salt, base, n, was), (base + 1) % RING;
    hide Stands, HeaderBlock, SealPack, Bulk, Assured, FuaPack, ValidImage;
    forall place | 0 <= place < RING
      ensures dev[place] == was[place] || OwnBlock(Small(), Cfg(salt), Assured(base, n), dev, place)
    {
      if place == Slot(Small().g, base) {
        FuaStands(salt, base, n, was, base);
      } else if first <= place < first + n {
        DataPlace(base, n, place - first);
        FuaStands(salt, base, n, was, base + 1 + (place - first));
      }
    }
  }

  lemma FuaKept(salt: u32, base: u64, n: nat, was: seq<Block>)
    requires Placeable(base, n) && ValidImage(Small().g, was)
    ensures ValidImage(Small().g, Laid(salt, base, n, was))
    ensures CrashLog(Small(), Cfg(salt), Assured(base, n), Laid(salt, base, n, was))
  {
    LaidValid(salt, base, n, was);
    var l := Assured(base, n);
    hide HasBlock, BlockIntact, Laid, FuaPack, Overwritten, ValidImage, Written;
    assert |l.packs| == 1 && l.packs[0].p == FuaPack(base, n);
    forall i, m: nat | 0 <= i < |l.packs| && HasBlock(Small().g, l.packs[i].p, m)
      ensures |l.packs[i].p.header.records| <= MaxRecords(1)
      ensures BlockIntact(Small().g, salt, Laid(salt, base, n, was), l.packs[i].p, m)
    {
      LaidIntact(salt, base, n, was, m);
    }
  }

  lemma OnePack(base: u64, n: nat)
    requires Placeable(base, n)
    ensures Packs(Assured(base, n)) == [FuaPack(base, n)] && Live(At(base, Assured(base, n), {0})) == [FuaPack(base, n)]
  {
    hide FuaPack, FuaBlocks;
  }

  lemma FuaNoForgery(salt: u32, base: u64, n: nat, was: seq<Block>)
    requires Placeable(base, n) && ValidImage(Small().g, was)
    ensures ValidImage(Small().g, Laid(salt, base, n, was))
    ensures NoForgery(Small(), Cfg(salt), Assured(base, n), Laid(salt, base, n, was))
  {
    LaidValid(salt, base, n, was);
    LaidAt(salt, base, n, was);
    var dev, l := Laid(salt, base, n, was), Assured(base, n);
    assert Bulk(1) == [seq(SECTOR_WORDS, k => 0)];
    hide HasBlock, BlockIntact, Laid, ValidImage, Bulk, HeaderBlock, SealPack, FuaBlocks, Accepts;
    forall i: nat, m: nat, x: nat |
      Stands(Small(), Cfg(salt), l, dev, i, m) && m != l.packs[i].p.header.lsid && Slot(Small().g, x) == Slot(Small().g, m) && l.base <= x
      ensures !Accepts(Cfg(salt), dev, x)
    {
      FuaBlock(base, n, m);
      NoHeader(Cfg(salt), dev, x, 0);
    }
  }

  lemma FuaSound(salt: u32, base: u64, n: nat, was: seq<Block>)
    requires Placeable(base, n) && ValidImage(Small().g, was)
    ensures ValidImage(Small().g, Laid(salt, base, n, was))
    ensures ChecksumsHold(Small(), Cfg(salt), At(base, Assured(base, n), {0}), Laid(salt, base, n, was))
  {
    FuaNoForgery(salt, base, n, was);
    OnePack(base, n);
    FuaGood(base, n);
    AllLaid(salt, base, n, was);
    hide NoForgery, Laid, ValidImage, GoodPacks, AllIntact, Chained, PackDetects, FuaPack;
    PackIntactDetects(Cfg(salt), Laid(salt, base, n, was), [FuaPack(base, n)], 0);
  }

  /** Nothing has been written to the data device yet. */
  lemma NoHits(s: St, d0: Image)
    requires s.d.hits == [] && s.flushed == 0
    ensures CrashData(s, d0, d0)
  {
    forall x | 0 <= x < |d0| ensures MayHold(d0, s.l.writes, s.d.hits, 0, x, d0[x]) {
      assert s.d.hits[..0] == [];
      assert HeldAt(d0, s.l.writes, s.d.hits, 0, x, d0[x]);
    }
  }

  /** The life that makes one FUA write, acknowledges it and crashes with its whole
      log on the medium. */
  lemma FuaLife(salt: u32, base: u64, n: nat, was: seq<Block>, d0: Image) returns (life: Life, after: Disks)
    requires Placeable(base, n) && ValidImage(Small().g, was) && |d0| == Small().size
    ensures Lived(Small(), Cfg(salt), Disks(base, was, d0), life, after) && SoundCrash(Small(), Cfg(salt), life)
    ensures Crashed(life) == At(base, Assured(base, n), {0}) && life.log == Laid(salt, base, n, was) && life.data == d0
  {
    AfterAssured(base, n);
    FuaCarried(salt, base, n, was);
    FuaKept(salt, base, n, was);
    FuaSound(salt, base, n, was);
    var s, dev := At(base, Assured(base, n), {0}), Laid(salt, base, n, was);
    NoHits(s, d0);
    hide Laid, Run, CarriedOver, CrashLog, CrashData, ChecksumsHold, Assured, ValidImage;
    var run :| Run(Small(), base, run) && run[|run| - 1] == s;
    life := Life(run, dev, d0);
    var o := RedoLog(Cfg(salt), dev, s.super);
    after := Disks(o.next, o.dev, Apply(d0, Writes(o.ios)));
  }

  lemma AssuredFacts(base: u64, n: nat)
    requires Placeable(base, n)
    ensures var l := Assured(base, n);
      l.latest == base + 1 + n == l.fuaPromise && l.writes == [FuaEntry(base, n)] && At(base, l, {0}).super == base
  {
  }

  lemma OnePackReplay(c: Config, dev: seq<Block>, p: Pack, w: Write, start: nat, end: nat, d: Image)
    requires ValidImage(c.g, dev) && GoodPacks(c.g, [p]) && Chained([p], start, end) && AllIntact(c, dev, [p], 1)
    requires WritesOf(AllLogged(c.g, [p])) == [w] && AllFit([w], |d|)
    ensures Passes(d, [w], RedoLog(c, dev, start), RedoLog(c, dev, end))
    ensures end <= RedoLog(c, dev, start).next
    ensures RedoLog(c, dev, start).next == end <==> !GoesOn(c, dev, end)
  {
    hide ValidImage, GoesOn, RedoLog, AllLogged, WritesOf, AllFit, GoodPacks, Chained, AllIntact, Passes;
    IntactReplay(c, dev, [p], start, end, d);
  }

  /** Replay of a device that holds the pack: its write, and then whatever is found
      behind it. */
  lemma FuaReplay(c: Config, dev: seq<Block>, base: u64, n: nat, d: Image)
    requires Placeable(base, n) && c.g == Small().g && ValidImage(c.g, dev) && n <= |d|
    requires AllIntact(c, dev, [FuaPack(base, n)], 1)
    ensures Passes(d, [Write(0, Bulk(n))], RedoLog(c, dev, base), RedoLog(c, dev, base + 1 + n))
    ensures base + 1 + n <= RedoLog(c, dev, base).next
    ensures RedoLog(c, dev, base).next == base + 1 + n <==> !GoesOn(c, dev, base + 1 + n)
  {
    hide ValidImage, GoesOn, RedoLog, AllLogged, WritesOf, AllFit, GoodPacks, Chained, AllIntact, Passes, Bulk, FuaPack;
    FuaGood(base, n);
    FuaFits(base, n, |d|);
    OnePackReplay(c, dev, FuaPack(base, n), Write(0, Bulk(n)), base, base + 1 + n, d);
  }

  lemma FuaFits(base: u64, n: nat, size: nat)
    requires Placeable(base, n) && n <= size
    ensures WritesOf(AllLogged(Small().g, [FuaPack(base, n)])) == [Write(0, Bulk(n))]
    ensures AllFit([Write(0, Bulk(n))], size)
  {
    FuaLogged(base, n);
    assert |Bulk(n)| == n;
    hide AllLogged, LoggedOf, BlocksOf, FuaPack, Bulk;
    assert WritesOf([FuaEntry(base, n)]) == [Write(0, Bulk(n))];
  }

  lemma PastTheEnd(s: St, d0: Image, d: Image, o: Outcome, m: nat)
    requires |s.l.writes| == 1 && s.l.writes[0].lsid <= s.l.latest < o.next
    ensures !Recovered(s, d0, d, o, m)
  {
  }

  lemma LivedNext(c: Setup, cfg: Config, before: Disks, life: Life, after: Disks)
    requires Lived(c, cfg, before, life, after)
    ensures life.run != [] && ValidImage(cfg.g, life.log)
    ensures after.base == ReplayOf(cfg, life).next && after.data == Apply(life.data, Writes(ReplayOf(cfg, life).ios))
  {
  }

  /** Whatever is on the device: if replay that comes to the end of a pack of one
      acknowledged FUA write finds a header there that takes it on, what it makes of
      the data device is no prefix of the life's writes. */
  lemma StaleHeaderBites(salt: u32, base: u64, n: nat, was: seq<Block>, d0: Image) returns (life: Life, after: Disks)
    requires Placeable(base, n) && ValidImage(Small().g, was) && |d0| == Small().size
    requires ValidImage(Small().g, Laid(salt, base, n, was)) && GoesOn(Cfg(salt), Laid(salt, base, n, was), base + 1 + n)
    ensures Lived(Small(), Cfg(salt), Disks(base, was, d0), life, after) && SoundCrash(Small(), Cfg(salt), life)
    ensures Crashed(life) == At(base, Assured(base, n), {0}) && life.log == Laid(salt, base, n, was) && life.data == d0
    ensures Crashed(life).l.fuaPromise == Crashed(life).l.latest == base + 1 + n < after.base
    ensures forall m: nat :: !Recovered(Crashed(life), d0, life.data, ReplayOf(Cfg(salt), life), m)
  {
    life, after := FuaLife(salt, base, n, was, d0);
    AssuredFacts(base, n);
    AllLaid(salt, base, n, was);
    FuaReplay(Cfg(salt), Laid(salt, base, n, was), base, n, d0);
    hide Laid, SoundCrash, Assured, ValidImage, GoesOn, RedoLog, Bulk, Passes, Recovered, Lived;
    LivedNext(Small(), Cfg(salt), Disks(base, was, d0), life, after);
    forall m: nat ensures !Recovered(Crashed(life), d0, life.data, ReplayOf(Cfg(salt), life), m) {
      PastTheEnd(Crashed(life), d0, life.data, ReplayOf(Cfg(salt), life), m);
    }
  }

  // ----------------------------------------- the life that leaves the header behind

  function Ones(): Sector { seq(SECTOR_WORDS, k => 1) }
  function StrayBio(): Bio { Bio(0, 1, [Ones()], false, false, false, 0) }
  function StrayPack(): Pack { Pack(FirstHeader(2, StrayBio()), [StrayBio()], false, false) }
  function StrayEntry(): Logged { Logged(Write(0, [Ones()]), 3, 1, false) }

  lemma StrayPacks()
    ensures PackAll(Small().g, 0, 2, [StrayBio()]) == Packing([StrayPack()], None, 4, false)
  {
    hide Ones;
    PackAllOne(StrayBio(), 2);
    PackOne([], 2, StrayBio(), false);
    assert [] + [StrayPack()] == [StrayPack()];
  }

  lemma StrayPlace()
    ensures LoggedOf(Small().g, StrayPack()) == [StrayEntry()] && NextLsid(StrayPack().header) == 4
  {
    hide Ones, NonPadding;
    OneBlockEach(1);
    OneRequest(StrayPack().header.records[0]);
  }

  lemma StrayLogged()
    ensures LoggedOf(Small().g, StrayPack()) == [StrayEntry()] && BlocksOf(Small().g, StrayPack()) == {2, 3}
    ensures NextLsid(StrayPack().header) == 4 && AllLogged(Small().g, [StrayPack()]) == [StrayEntry()]
  {
    StrayPlace();
    assert StrayPack().header.records != [] && StrayPack().header.lsid == 2;
    hide StrayPack, LoggedOf, NextLsid;
    AllLoggedOne(Small().g, StrayPack());
    hide AllLogged, Ones;
    OneRange(StrayEntry());
    assert Span(3, 4) == {3};
    hide Ranges, Span;
  }

  lemma StrayTaken()
    ensures Acceptable(Small(), StrayBio())
  {
    OneBlockEach(1);
  }

  function OldSubmitted(): LogSt { OldPacked().(nSub := 1, issued := {0, 1}) }

  function StrayMade(): LogSt {
    OldSubmitted().(packs := [LPack(OldPack(), false, Token(0, {}), 0), LPack(StrayPack(), false, Token(0, {}), 1)],
                    latest := 4, writes := [E0(), StrayEntry()])
  }

  /** Two packs are submitted; nothing is known to have reached the medium. */
  function StraySubmitted(): LogSt { StrayMade().(nSub := 2, issued := {0, 1, 2, 3}) }

  lemma AfterStrayMade()
    ensures Reach(Small(), 0, At0(StrayMade(), {}))
  {
    AfterOldCreate();
    OldLogged();
    StrayTaken();
    StrayPacks();
    StrayLogged();
    hide Reach, Bulk, Ones, BlocksOf, LoggedOf, AllLogged, PackAll, Acceptable;
    var l := OldPacked();
    assert l.issued + {0, 1} == {0, 1};
    assert Next(Small(), 0, l, SubmitNext) == OldSubmitted();
    LogStep(Small(), 0, At0(l, {}), SubmitNext);
    var l1 := OldSubmitted().(queue := [StrayBio()]);
    assert Next(Small(), 0, OldSubmitted(), Push(StrayBio())) == l1;
    LogStep(Small(), 0, At0(OldSubmitted(), {}), Push(StrayBio()));
    StrayCreate();
    LogStep(Small(), 0, At0(l1, {}), Create(1, false));
  }

  lemma StrayCreate()
    ensures var l := OldSubmitted().(queue := [StrayBio()]);
      Enabled(Small(), 0, l, Create(1, false)) && Next(Small(), 0, l, Create(1, false)) == StrayMade()
  {
    StrayPacks();
    StrayLogged();
    hide Bulk, Ones, PackAll, AllLogged, LoggedOf, BlocksOf;
    var l := OldSubmitted().(queue := [StrayBio()]);
    assert l.queue[..1] == [StrayBio()] && l.queue[1..] == [];
    assert NewPacks(l, [StrayPack()], false) == [LPack(StrayPack(), false, Token(0, {}), 1)];
    assert [E0()] + [StrayEntry()] == [E0(), StrayEntry()];
  }

  lemma AfterStraySubmitted()
    ensures Reach(Small(), 0, At0(StraySubmitted(), {}))
  {
    AfterStrayMade();
    StrayLogged();
    hide Reach, Bulk, Ones, BlocksOf, LoggedOf, AllLogged;
    assert StrayMade().issued + {2, 3} == {0, 1, 2, 3};
    assert Next(Small(), 0, StrayMade(), SubmitNext) == StraySubmitted();
    LogStep(Small(), 0, At0(StrayMade(), {}), SubmitNext);
  }

  /** A log device that was never written. */
  function ZeroLog(): (dev: seq<Block>)
    ensures ValidImage(Small().g, dev)
  {
    seq(RING, p => Bulk(1))
  }

  /** The crash keeps the second pack and loses the first. */
  function StrayLog(salt: u32): (dev: seq<Block>)
    ensures ValidImage(Small().g, dev)
  {
    HeaderSize(salt, StrayPack());
    ZeroLog()[2 := HeaderBlock(Small().g, SealPack(Small().g, salt, StrayPack()))][3 := [Ones()]]
  }

  lemma StrayAt(salt: u32)
    ensures |StrayPack().header.records| <= MaxRecords(1)
    ensures var dev := StrayLog(salt);
      && dev[2] == HeaderBlock(Small().g, SealPack(Small().g, salt, StrayPack())) && dev[3] == [Ones()]
      && forall p | 0 <= p < RING && p != 2 && p != 3 :: dev[p] == Bulk(1)
  {
    hide HeaderBlock, SealPack, Bulk, Ones;
  }

  /** Wherever these two blocks are in place the pack is intact. */
  lemma StrayIntact(salt: u32, dev: seq<Block>, m: nat)
    requires ValidImage(Small().g, dev) && |StrayPack().header.records| <= MaxRecords(1)
    requires dev[2] == HeaderBlock(Small().g, SealPack(Small().g, salt, StrayPack())) && dev[3] == [Ones()]
    ensures HasBlock(Small().g, StrayPack(), m) <==> m == 2 || m == 3
    ensures m == 2 || m == 3 ==> BlockIntact(Small().g, salt, dev, StrayPack(), m)
  {
    StrayLogged();
    BlocksOfHas(Small().g, StrayPack(), m);
    assert Slot(Small().g, 2) == 2 && Slot(Small().g, 3) == 3;
    assert Piece(Small().g, [Ones()], 0) == [Ones()];
    hide HeaderBlock, SealPack, Ones, LoggedOf, BlocksOf, AllLogged, Slot, Piece, HasBlock;
  }

  lemma OldHas(m: nat)
    ensures HasBlock(Small().g, OldPack(), m) <==> m == 0 || m == 1
  {
    OldLogged();
    BlocksOfHas(Small().g, OldPack(), m);
    hide BlocksOf, HasBlock, LoggedOf, AllLogged;
  }

  lemma StrayCarried(salt: u32)
    ensures CarriedOver(Small(), Cfg(salt), StraySubmitted(), ZeroLog(), StrayLog(salt))
    ensures CrashLog(Small(), Cfg(salt), StraySubmitted(), StrayLog(salt))
  {
    StrayAt(salt);
    var dev, l := StrayLog(salt), StraySubmitted();
    assert l.nSub == |l.packs| == 2 && l.packs[1].p == StrayPack() && l.durable == {};
    StrayIntact(salt, dev, 2);
    StrayIntact(salt, dev, 3);
    assert Slot(Small().g, 2) == 2 && Slot(Small().g, 3) == 3;
    hide HeaderBlock, SealPack, Bulk, Ones, StrayLog, HasBlock, BlockIntact, StraySubmitted, StrayPack, Slot;
    assert Stands(Small(), Cfg(salt), l, dev, 1, 2) && Stands(Small(), Cfg(salt), l, dev, 1, 3);
    forall place | 0 <= place < RING ensures dev[place] == ZeroLog()[place] || OwnBlock(Small(), Cfg(salt), l, dev, place) {
    }
  }

  /** Its data blocks are zeros and ones. */
  lemma StrayNoForgery(salt: u32)
    ensures NoForgery(Small(), Cfg(salt), StraySubmitted(), StrayLog(salt))
  {
    StrayAt(salt);
    var dev, l := StrayLog(salt), StraySubmitted();
    assert |l.packs| == 2 && l.packs[0].p == OldPack() && l.packs[1].p == StrayPack();
    assert OldPack().header.lsid == 0 && StrayPack().header.lsid == 2;
    assert Bulk(1) == [seq(SECTOR_WORDS, k => 0)] && [Ones()] == [seq(SECTOR_WORDS, k => 1)];
    assert Slot(Small().g, 1) == 1 && Slot(Small().g, 3) == 3;
    hide HasBlock, BlockIntact, StrayLog, HeaderBlock, SealPack, Bulk, Ones, Accepts, StraySubmitted, StrayPack, OldPack, Slot;
    forall i: nat, m: nat, x: nat |
      Stands(Small(), Cfg(salt), l, dev, i, m) && m != l.packs[i].p.header.lsid && Slot(Small().g, x) == Slot(Small().g, m) && l.base <= x
      ensures !Accepts(Cfg(salt), dev, x)
    {
      if i == 0 {
        OldHas(m);
        NoHeader(Cfg(salt), dev, x, 0);
      } else {
        StrayIntact(salt, dev, m);
        NoHeader(Cfg(salt), dev, x, 1);
      }
    }
  }

  /** A request of one block that reads back as it is. */
  lemma OneBlockDetects(c: Config, dev: seq<Block>, p: Pack, e: Logged)
    requires c.g == Small().g && ValidImage(c.g, dev) && LoggedOf(c.g, p) == [e]
    requires e.pb == |e.w.data| == 1 && dev[Slot(c.g, e.lsid)] == e.w.data
    ensures PackDetects(c, dev, p)
  {
    hide LoggedOf, ChecksumOf, Flatten;
    assert BlocksAt(c, dev, e) == [e.w.data];
    assert [e.w.data][..0] == [] && DataOf([], 1) == [];
    assert DataOf(BlocksAt(c, dev, e), 1) == e.w.data;
  }

  lemma StrayDetects(salt: u32)
    ensures PackDetects(Cfg(salt), StrayLog(salt), OldPack()) && PackDetects(Cfg(salt), StrayLog(salt), StrayPack())
  {
    StrayAt(salt);
    StrayLogged();
    OldLogged();
    assert Slot(Small().g, 1) == 1 && Slot(Small().g, 3) == 3 && |Bulk(1)| == 1;
    hide StrayLog, HeaderBlock, SealPack, Bulk, Ones, StrayPack, OldPack, Slot, LoggedOf, BlocksOf, AllLogged, PackDetects;
    OneBlockDetects(Cfg(salt), StrayLog(salt), OldPack(), E0());
    OneBlockDetects(Cfg(salt), StrayLog(salt), StrayPack(), StrayEntry());
  }

  lemma StraySound(salt: u32)
    ensures ChecksumsHold(Small(), Cfg(salt), At0(StraySubmitted(), {}), StrayLog(salt))
  {
    StrayNoForgery(salt);
    StrayDetects(salt);
    var s := At0(StraySubmitted(), {});
    assert Live(s) == [OldPack(), StrayPack()];
    hide NoForgery, PackDetects, StrayLog, OldPack, StrayPack;
  }

  /** Replay of what that life left finds no header at all at its start. */
  lemma StrayReplay(salt: u32)
    ensures RedoLog(Cfg(salt), StrayLog(salt), 0) == Outcome([], 0, true, StrayLog(salt))
  {
    StrayAt(salt);
    assert Slot(Small().g, 0) == 0;
    assert Bulk(1) == [seq(SECTOR_WORDS, k => 0)];
    hide StrayLog, HeaderBlock, SealPack, Bulk, Ones, Slot;
    NoHeader(Cfg(salt), StrayLog(salt), 0, 0);
    RedoRejects(Cfg(salt), StrayLog(salt), 0);
  }

  lemma ZeroClean(salt: u32)
    ensures Clean(Cfg(salt), ZeroLog(), 0)
  {
    assert Bulk(1) == [seq(SECTOR_WORDS, k => 0)];
    hide Bulk;
    forall x: nat | 0 <= x ensures !Accepts(Cfg(salt), ZeroLog(), x) {
      NoHeader(Cfg(salt), ZeroLog(), x, 0);
    }
  }

  /** The first life: two packs, of which the crash loses the first one's header. */
  lemma StrayLife(salt: u32, d0: Image) returns (life: Life)
    requires |d0| == Small().size
    ensures Lived(Small(), Cfg(salt), Disks(0, ZeroLog(), d0), life, Disks(0, StrayLog(salt), d0))
    ensures SoundCrash(Small(), Cfg(salt), life)
  {
    AfterStraySubmitted();
    StrayCarried(salt);
    StraySound(salt);
    StrayReplay(salt);
    var s, dev := At0(StraySubmitted(), {}), StrayLog(salt);
    NoHits(s, d0);
    ApplyNothing(d0);
    hide StrayLog, Run, CarriedOver, CrashLog, CrashData, ChecksumsHold, StraySubmitted, ValidImage, RedoLog, ZeroLog;
    var run :| Run(Small(), 0, run) && run[|run| - 1] == s;
    life := Life(run, dev, d0);
    assert ReplayOf(Cfg(salt), life) == Outcome([], 0, true, dev);
  }

  // ------------------------------------------------------------ the two together

  /** After the second life the stray pack stands right behind the FUA write. */
  lemma BothAt(salt: u32)
    ensures ValidImage(Small().g, Laid(salt, 0, 1, StrayLog(salt))) && |StrayPack().header.records| <= MaxRecords(1)
    ensures var dev := Laid(salt, 0, 1, StrayLog(salt));
      dev[2] == HeaderBlock(Small().g, SealPack(Small().g, salt, StrayPack())) && dev[3] == [Ones()] && dev[4] == Bulk(1)
  {
    LaidValid(salt, 0, 1, StrayLog(salt));
    StrayAt(salt);
    LaidRest(salt, StrayLog(salt));
    hide StrayLog, HeaderBlock, SealPack, Bulk, Ones, Laid;
  }

  lemma LaidRest(salt: u32, was: seq<Block>)
    requires |was| == RING
    ensures |Laid(salt, 0, 1, was)| == RING && forall p | 2 <= p < RING :: Laid(salt, 0, 1, was)[p] == was[p]
  {
    assert Slot(Small().g, 0) == 0 && (0 + 1) % RING == 1;
    hide HeaderBlock, SealPack, Bulk, Slot;
  }

  lemma StrayGood()
    ensures GoodPacks(Small().g, [StrayPack()]) && Chained([StrayPack()], 2, 4)
    ensures WritesOf(AllLogged(Small().g, [StrayPack()])) == [Write(0, [Ones()])]
  {
    StrayLogged();
    StrayPacks();
    OneBlockEach(1);
    hide Ones, PackAll, LoggedOf, BlocksOf;
    PackAllOk(Small().g, 0, 2, [StrayBio()]);
    assert StrayPack() in [StrayPack()];
    hide AllLogged;
    assert WritesOf([StrayEntry()]) == [Write(0, [Ones()])];
  }

  lemma StrayAllIntact(salt: u32, dev: seq<Block>)
    requires ValidImage(Small().g, dev) && |StrayPack().header.records| <= MaxRecords(1)
    requires dev[2] == HeaderBlock(Small().g, SealPack(Small().g, salt, StrayPack())) && dev[3] == [Ones()]
    ensures AllIntact(Cfg(salt), dev, [StrayPack()], 1)
  {
    hide HeaderBlock, SealPack, Ones, StrayPack, HasBlock, BlockIntact;
    forall i, l: nat | 0 <= i < 1 && HasBlock(Small().g, [StrayPack()][i], l) ensures BlockIntact(Small().g, salt, dev, StrayPack(), l) {
      StrayIntact(salt, dev, l);
    }
  }

  /** Replay that comes to it applies its write. */
  lemma StrayTakesOn(c: Config, dev: seq<Block>, d: Image)
    requires c.g == Small().g && ValidImage(c.g, dev) && |d| >= 1
    requires AllIntact(c, dev, [StrayPack()], 1) && dev[4] == Bulk(1)
    ensures GoesOn(c, dev, 2) && Apply(d, Writes(RedoLog(c, dev, 2).ios)) == Put(d, Write(0, [Ones()]))
  {
    StrayGood();
    assert Slot(c.g, 4) == 4 && Bulk(1) == [seq(SECTOR_WORDS, k => 0)];
    hide Bulk, Ones, StrayPack, GoodPacks, Chained, AllIntact, WritesOf, AllLogged, GoesOn, RedoLog, Apply, Writes, Slot;
    NoHeader(c, dev, 4, 0);
    hide ValidImage;
    RedoRejects(c, dev, 4);
    OnePackReplay(c, dev, StrayPack(), Write(0, [Ones()]), 2, 4, d);
    GoesOnMeans(c, dev, 2);
    ApplyOne(d, Write(0, [Ones()]));
    ApplyNothing(Apply(d, [Write(0, [Ones()])]));
  }

  /** The second life's replay: its own write, and then the stray one over it. */
  lemma BothReplayed(c: Config, dev: seq<Block>, d: Image)
    requires c.g == Small().g && ValidImage(c.g, dev) && |d| >= 1
    requires AllIntact(c, dev, [FuaPack(0, 1)], 1) && AllIntact(c, dev, [StrayPack()], 1) && dev[4] == Bulk(1)
    ensures Apply(d, Writes(RedoLog(c, dev, 0).ios)) == Put(Put(d, Write(0, Bulk(1))), Write(0, [Ones()]))
  {
    hide ValidImage, Bulk, Ones, StrayPack, FuaPack, AllIntact, GoesOn, RedoLog, Apply, Writes;
    FuaReplay(c, dev, 0, 1, d);
    StrayTakesOn(c, dev, Put(d, Write(0, Bulk(1))));
    ApplyOne(d, Write(0, Bulk(1)));
  }

  /** Two lives. The first logs two packs; the crash loses the header of the first,
      so replay ends at once, but the second stays on the medium. The second life
      makes one FUA write, whose pack ends where the left pack begins, acknowledges
      it and crashes with everything on the medium. Replay goes on into the old pack
      and puts its write over the acknowledged one. Every checksum is right. */
  lemma StaleHeaderReplayed(salt: u32, d0: Image) returns (disks: seq<Disks>, lives: seq<Life>)
    requires |d0| == Small().size
    ensures InARow(Small(), Cfg(salt), disks, lives) && |lives| == 2 && CleanStart(Cfg(salt), disks[0])
    ensures SoundCrash(Small(), Cfg(salt), lives[0]) && SoundCrash(Small(), Cfg(salt), lives[1])
    ensures var l := Crashed(lives[1]).l; l.writes == [FuaEntry(0, 1)] && l.fuaPromise == l.latest
    ensures disks[2].data[0] == Ones() != FuaEntry(0, 1).w.data[0]
    ensures forall m: nat :: !Recovered(Crashed(lives[1]), disks[1].data, lives[1].data, ReplayOf(Cfg(salt), lives[1]), m)
  {
    ZeroClean(salt);
    var first := StrayLife(salt, d0);
    var second, last := StrayThenFua(salt, d0);
    Differ();
    hide Lived, Clean, SoundCrash, StrayLog, ZeroLog, Recovered, Ones, Bulk, Assured, InARow;
    var a, b := Disks(0, ZeroLog(), d0), Disks(0, StrayLog(salt), d0);
    disks, lives := [a, b, last], [first, second];
    TwoInARow(Small(), Cfg(salt), a, b, last, first, second);
  }

  lemma TwoInARow(c: Setup, cfg: Config, a: Disks, b: Disks, d: Disks, first: Life, second: Life)
    requires Lived(c, cfg, a, first, b) && Lived(c, cfg, b, second, d)
    ensures InARow(c, cfg, [a, b, d], [first, second])
  {
    hide Lived;
  }

  lemma Differ()
    ensures Ones() != Bulk(1)[0]
  {
    assert Ones()[0] == 1 && Bulk(1)[0][0] == 0;
  }

  /** Both packs are intact, and nothing is behind them. */
  ghost predicate BothHeld(c: Config, dev: seq<Block>) {
    && c.g == Small().g && ValidImage(c.g, dev)
    && AllIntact(c, dev, [FuaPack(0, 1)], 1) && AllIntact(c, dev, [StrayPack()], 1) && dev[4] == Bulk(1)
  }

  lemma BothIntact(salt: u32)
    ensures |StrayLog(salt)| == RING && BothHeld(Cfg(salt), Laid(salt, 0, 1, StrayLog(salt)))
  {
    BothAt(salt);
    AllLaid(salt, 0, 1, StrayLog(salt));
    hide Laid, StrayLog, HeaderBlock, SealPack, AllIntact, StrayPack, FuaPack, Bulk, Ones, ValidImage;
    StrayAllIntact(salt, Laid(salt, 0, 1, StrayLog(salt)));
  }

  lemma BothGoesOn(c: Config, dev: seq<Block>)
    requires BothHeld(c, dev)
    ensures ValidImage(Small().g, dev) && GoesOn(c, dev, 2)
  {
    assert |Bulk(1)| == 1;
    hide AllIntact, StrayPack, FuaPack, Ones, Put, RedoLog, Apply, Writes, GoesOn;
    StrayTakesOn(c, dev, Bulk(1));
  }

  lemma PutTwice0(d: Image)
    requires |d| >= 1
    ensures Put(Put(d, Write(0, Bulk(1))), Write(0, [Ones()]))[0] == Ones()
  {
    hide Bulk, Ones;
  }

  lemma SecondData(c: Config, before: Disks, life: Life, after: Disks)
    requires Lived(Small(), c, before, life, after) && BothHeld(c, life.log) && |life.data| >= 1
    requires life.run != [] && Crashed(life).super == 0
    ensures |after.data| == |life.data| && after.data[0] == Ones()
  {
    LivedNext(Small(), c, before, life, after);
    hide Lived, ValidImage, AllIntact, StrayPack, FuaPack, Bulk, Ones, RedoLog, Writes;
    BothReplayed(c, life.log, life.data);
    PutTwice0(life.data);
    hide Put;
  }

  lemma StrayThenFua(salt: u32, d0: Image) returns (life: Life, after: Disks)
    requires |d0| == Small().size
    ensures Lived(Small(), Cfg(salt), Disks(0, StrayLog(salt), d0), life, after) && SoundCrash(Small(), Cfg(salt), life)
    ensures Crashed(life).l.writes == [FuaEntry(0, 1)] && Crashed(life).l.fuaPromise == Crashed(life).l.latest
    ensures |after.data| == |d0| && after.data[0] == Ones()
    ensures forall m: nat :: !Recovered(Crashed(life), d0, life.data, ReplayOf(Cfg(salt), life), m)
  {
    BothIntact(salt);
    hide StrayLog, Laid, ValidImage, BothHeld, Assured, Bulk, Ones, GoesOn, Recovered, Lived, SoundCrash, RedoLog, Run, Slot;
    BothGoesOn(Cfg(salt), Laid(salt, 0, 1, StrayLog(salt)));
    life, after := StaleHeaderBites(salt, 0, 1, StrayLog(salt), d0);
    AssuredFacts(0, 1);
    LivedNext(Small(), Cfg(salt), Disks(0, StrayLog(salt), d0), life, after);
    SecondData(Cfg(salt), Disks(0, StrayLog(salt), d0), life, after);
  }
}
