/** Two runs of the pipeline in which the code does not keep what module/kern.h and
    the flush semantics state: a pack that ends in padding behind a FUA write, and a
    flush whose header flush is suppressed by a FUA write of the same pack. */
module Counterexamples {
  import opened Words
  import opened LogRecord
  import opened Logpack
  import opened WritePack
  import opened Disk
  import opened LogDevice
  import opened RoundTrip
  import opened Recovery
  import opened Overlapped
  import opened LogSide
  import opened Promises
  import opened DataSide
  import opened Pipeline
  import opened LsidOrder

  /** Some run reaches the state. */
  ghost predicate Reach(c: Setup, base: u64, s: St) {
    exists run :: Run(c, base, run) && run[|run| - 1] == s
  }

  lemma ReachStart(c: Setup, base: u64)
    ensures Reach(c, base, Start(base))
  {
    assert Run(c, base, [Start(base)]);
  }

  lemma ReachStep(c: Setup, base: u64, s: St, p: PStep)
    requires Reach(c, base, s) && Can(c, s, p)
    ensures Reach(c, base, Do(c, s, p))
  {
    hide Can, Do;
    var run :| Run(c, base, run) && run[|run| - 1] == s;
    var more := run + [Do(c, s, p)];
    assert Follows(c, s, Do(c, s, p), p);
    forall i | 0 < i < |more| ensures OneStep(c, more[i - 1], more[i]) {
      if i < |run| {
        assert OneStep(c, run[i - 1], run[i]);
      }
    }
    assert Run(c, base, more);
  }

  /** A step of the log side that inserts nothing into the pending data. */
  lemma LogStep(c: Setup, base: u64, s: St, t: LStep)
    requires Reach(c, base, s) && Enabled(c, s.prevWritten, s.l, t) && !t.InsertPending?
    ensures Reach(c, base, s.(l := Next(c, s.prevWritten, s.l, t)))
  {
    hide Reach, Enabled, Next;
    ReachStep(c, base, s, Log(t));
  }

  // ---------------------------------------------------- two packs for two lists

  const RING: nat := 200000

  /** A device of 65536 sectors with physical blocks of one sector. */
  function Small(): Setup {
    Setup(RawGeometry(1, RING), 0, 65536)
  }

  function Bulk(n: nat): seq<Sector> {
    seq(n, i => seq(SECTOR_WORDS, k => 0))
  }

  /** A request of `n` sectors at `pos`. */
  function Request(pos: u64, n: u32, flush: bool, fua: bool, stamp: nat): Bio
  {
    Bio(pos, n, Bulk(n), flush, fua, false, stamp)
  }

  /** The header that holds just this request. */
  function FirstHeader(lsid: nat, b: Bio): Header
    requires lsid + 1 < U64_SIZE && b.len < U16_SIZE
  {
    Header(0, SECTOR_TYPE_LOGPACK, b.len, lsid, 0, [Record(0, true, false, false, b.pos, b.len, 1, lsid + 1)])
  }

  lemma OneBlockEach(n: nat)
    ensures CapacityPb(1, n) == n
  {
  }

  /** Packing a request into a fresh header that does not reach the ring end. */
  lemma PackOne(packs: seq<Pack>, lsid: u64, b: Bio, isFlush: bool)
    requires lsid + 1 < U64_SIZE && 0 < b.len <= 32768 && !b.discard && (lsid + 1) % RING + b.len <= RING
    ensures StartPack(Small().g, Packing(packs, None, lsid, isFlush), b)
         == Packing(packs, Some(Pack(FirstHeader(lsid, b), [b], false, b.fua)), lsid, isFlush || (b.flush && !b.fua))
  {
    OneBlockEach(b.len);
    assert [] + [b] == [b];
    assert EmptyHeader(lsid).records + [BioRecord(EmptyHeader(lsid), b)] == [BioRecord(EmptyHeader(lsid), b)];
  }

  lemma PackAllTwo(a: Bio, b: Bio, latest: u64)
    ensures PackAll(Small().g, 0, latest, [a, b])
         == Close(AddToPacking(Small().g, 0, AddToPacking(Small().g, 0, Packing([], None, latest, false), a), b))
  {
    hide AddToPacking;
    assert [a, b][..1] == [a] && [a][..0] == [];
    assert PackPrefix(Small().g, 0, latest, [a, b][..1]) == AddToPacking(Small().g, 0, PackPrefix(Small().g, 0, latest, [a][..0]), a);
  }

  lemma PackAllOne(a: Bio, latest: u64)
    ensures PackAll(Small().g, 0, latest, [a]) == Close(AddToPacking(Small().g, 0, Packing([], None, latest, false), a))
  {
    hide AddToPacking;
    assert [a][..0] == [] && PackPrefix(Small().g, 0, latest, []) == Packing([], None, latest, false);
  }

  // ------------------------------------------- a FUA write and trailing padding

  /** The log starts so that a request of 32768 blocks leaves 32766 before the ring
      end: too few for the next one, and padding them leaves no room for it. */
  const BASE: u64 := 134465

  function TailHeader(f: Bio): Header
    requires f.len == 32768
  {
    FirstHeader(BASE, f).(total := 65534, nPadding := 1,
      records := FirstHeader(BASE, f).records + [Record(0, true, true, false, 0, 32766, 32769, BASE + 32769)])
  }

  /** The second request is refused and leaves a padding record behind. */
  lemma TailRefuses(f: Bio, b: Bio)
    requires f.len == b.len == 32768 && !f.discard && !b.discard
    ensures AddBio(Small().g, FirstHeader(BASE, f), b) == (TailHeader(f), false)
  {
    OneBlockEach(32768);
    assert MaxRecords(1) > 2;
    var h := FirstHeader(BASE, f);
    assert BioLsid(h) == BASE + 32769 && PaddingPb(Small().g, BioLsid(h)) == 32766;
    assert PaddingRecord(Small().g, h, 32766) == Record(0, true, true, false, 0, 32766, 32769, BASE + 32769);
  }

  function TailPack(f: Bio): Pack
    requires f.len == 32768
  {
    Pack(TailHeader(f), [f], false, f.fua)
  }

  function FirstOpen(f: Bio): Packing
    requires f.len == 32768
  {
    Packing([], Some(Pack(FirstHeader(BASE, f), [f], false, f.fua)), BASE, false)
  }

  lemma TailCloses(f: Bio)
    requires f.len == 32768
    ensures Close(FirstOpen(f).(cur := Some(Pack(TailHeader(f), [f], false, f.fua)))) == Packing([TailPack(f)], None, RING, false)
  {
    assert [] + [TailPack(f)] == [TailPack(f)];
  }

  lemma TailMoves(f: Bio, b: Bio)
    requires f.len == b.len == 32768 && !f.discard && !b.discard && !b.flush
    ensures AddToPacking(Small().g, 0, FirstOpen(f), b)
         == StartPack(Small().g, Packing([TailPack(f)], None, RING, false), b)
  {
    TailRefuses(f, b);
    TailCloses(f);
    hide AddBio, StartPack, Close;
  }

  lemma TailPacks(f: Bio, b: Bio)
    requires f.len == b.len == 32768 && !f.discard && !b.discard && !f.flush && !b.flush
    ensures PackAll(Small().g, 0, BASE, [f, b])
         == Packing([TailPack(f), Pack(FirstHeader(RING, b), [b], false, b.fua)], None, RING + 32769, false)
  {
    hide StartPack, PackAll, TailPack, AddToPacking, Close, FirstHeader;
    PackAllTwo(f, b, BASE);
    StartsFirst(f);
    PackOne([], BASE, f, false);
    TailMoves(f, b);
    PackOne([TailPack(f)], RING, b, false);
    LastCloses([TailPack(f)], b);
  }

  lemma StartsFirst(f: Bio)
    requires f.len == 32768
    ensures AddToPacking(Small().g, 0, Packing([], None, BASE, false), f) == StartPack(Small().g, Packing([], None, BASE, false), f)
  {
    hide StartPack;
  }

  lemma LastCloses(packs: seq<Pack>, b: Bio)
    requires b.len == 32768
    ensures Close(Packing(packs, Some(Pack(FirstHeader(RING, b), [b], false, b.fua)), RING, false))
         == Packing(packs + [Pack(FirstHeader(RING, b), [b], false, b.fua)], None, RING + 32769, false)
  {
  }

  /** It ends in padding right behind a FUA request. */
  lemma TailIsFua(f: Bio)
    requires f.len == 32768 && f.fua
    ensures LoggedOf(Small().g, TailPack(f)) == [Logged(Write(f.pos, f.data), BASE + 1, 32768, true)]
    ensures NextLsid(TailHeader(f)) == RING && FuaTail(Small().g, TailPack(f))
  {
    OneBlockEach(32768);
    var recs := TailHeader(f).records;
    assert recs[..1] == FirstHeader(BASE, f).records && recs[..1][..0] == [];
    assert NonPadding(recs[..1]) == [recs[0]];
    assert NonPadding(recs) == [recs[0]];
  }

  /** The FUA request, the one behind it, and the pack of the latter. */
  function FuaBio(): Bio { Request(0, 32768, false, true, BASE) }
  function NextBio(): Bio { Request(32768, 32768, false, false, BASE) }
  function NextPack(): Pack { Pack(FirstHeader(RING, NextBio()), [NextBio()], false, false) }

  function Entry0(): Logged { Logged(Write(0, FuaBio().data), BASE + 1, 32768, true) }
  function Blocks0(): set<nat> { {BASE} + Span(BASE + 1, BASE + 32769) }

  function LPacks(): seq<LPack> {
    [LPack(TailPack(FuaBio()), false, Token(BASE, {}), 0), LPack(NextPack(), false, Token(BASE, {}), 0)]
  }

  /** The log side once both requests are packed. */
  function Packed(): LogSt {
    LogSide.Init(BASE).(packs := LPacks(), latest := RING + 32769,
                        writes := AllLogged(Small().g, [TailPack(FuaBio()), NextPack()]))
  }

  function With(l: LogSt): St { Start(BASE).(l := l) }

  lemma IntoQueue(b: Bio)
    requires b.flush == false && !b.discard && b.len == 32768 && b.data == Bulk(32768) && b.pos + b.len <= 65536
    ensures Acceptable(Small(), b)
  {
    OneBlockEach(32768);
  }

  lemma AfterPush()
    ensures Reach(Small(), BASE, With(LogSide.Init(BASE).(queue := [FuaBio(), NextBio()])))
  {
    hide Reach, Bulk;
    ReachStart(Small(), BASE);
    var s0, f, b := Start(BASE), FuaBio(), NextBio();
    IntoQueue(f);
    IntoQueue(b);
    hide Acceptable;
    ReachStep(Small(), BASE, s0, Log(Push(f)));
    var s1 := With(LogSide.Init(BASE).(queue := [f]));
    assert Do(Small(), s0, Log(Push(f))) == s1;
    ReachStep(Small(), BASE, s1, Log(Push(b)));
    assert Do(Small(), s1, Log(Push(b))) == With(LogSide.Init(BASE).(queue := [f, b]));
  }

  lemma AfterCreate()
    ensures Reach(Small(), BASE, With(Packed()))
  {
    hide Reach, Bulk;
    AfterPush();
    TailPacks(FuaBio(), NextBio());
    var l := LogSide.Init(BASE).(queue := [FuaBio(), NextBio()]);
    assert l.queue[..2] == [FuaBio(), NextBio()] && l.queue[2..] == [];
    hide PackAll, AllLogged;
    ReachStep(Small(), BASE, With(l), Log(Create(2, false)));
    var st := PackAll(Small().g, 0, BASE, [FuaBio(), NextBio()]);
    assert NewPacks(l, st.packs, false) == LPacks();
    assert [] + LPacks() == LPacks() && [] + AllLogged(Small().g, st.packs) == AllLogged(Small().g, st.packs);
    assert Next(Small(), BASE, l, Create(2, false)) == Packed();
  }

  lemma TailBlocks()
    ensures BlocksOf(Small().g, TailPack(FuaBio())) == Blocks0()
    ensures LoggedOf(Small().g, TailPack(FuaBio())) == [Entry0()]
    ensures Packed().writes != [] && Packed().writes[0] == Entry0()
    ensures CountBefore(Small(), Packed(), 1) == 1
  {
    hide Bulk;
    TailIsFua(FuaBio());
    assert [Entry0()][..0] == [];
    var ps := [TailPack(FuaBio()), NextPack()];
    assert AllLogged(Small().g, ps) == [Entry0()] + AllLogged(Small().g, ps[1..]);
    assert Packs(Packed())[..1] == [TailPack(FuaBio())];
    AllLoggedOne(Small().g, TailPack(FuaBio()));
  }

  // The log side, step by step, as changes of the packed state.

  function Submitted(): LogSt { Packed().(nSub := 1, issued := Blocks0(), hdrDone := {0}, done := Blocks0()) }

  lemma AfterBlocks()
    ensures Reach(Small(), BASE, With(Submitted()))
  {
    AfterCreate();
    TailBlocks();
    hide Reach, Bulk, BlocksOf, LoggedOf, AllLogged;
    var l := Packed();
    ReachStep(Small(), BASE, With(l), Log(SubmitNext));
    var l1 := l.(nSub := 1, issued := Blocks0());
    assert l.issued + Blocks0() == Blocks0();
    assert Next(Small(), BASE, l, SubmitNext) == l1;
    ReachStep(Small(), BASE, With(l1), Log(HeaderDone(0)));
    var l2 := l1.(hdrDone := {0}, done := {BASE});
    assert l1.hdrDone + {0} == {0} && l1.done + {BASE} == {BASE};
    assert Next(Small(), BASE, l1, HeaderDone(0)) == l2;
    ReachStep(Small(), BASE, With(l2), Log(BlocksDone(Blocks0())));
    assert l2.done + Blocks0() == Blocks0();
    assert Next(Small(), BASE, l2, BlocksDone(Blocks0())) == Submitted();
  }

  function InPack(): LogSt { Submitted().(phase := Ready(0), edge := BASE + 1) }
  function Inside(): LogSt { InPack().(phase := Inserted(0), edge := BASE + 32769, inserted := 1) }

  /** With one write inserted, the pending data holds it. */
  function WithOne(l: LogSt): St { Start(BASE).(l := l, d := InitData().(pending := {0})) }

  lemma AfterInsert()
    ensures Reach(Small(), BASE, WithOne(Inside()))
  {
    AfterBlocks();
    TailBlocks();
    hide Reach, Bulk, BlocksOf, LoggedOf, AllLogged;
    var l := Submitted();
    ReachStep(Small(), BASE, With(l), Log(BeginPack));
    assert Next(Small(), BASE, l, BeginPack) == InPack();
    assert Span(BASE + 1, BASE + 32769) <= Blocks0();
    ReachStep(Small(), BASE, With(InPack()), Log(InsertPending));
    assert Next(Small(), BASE, InPack(), InsertPending) == Inside();
    assert PendInsert(EnvOf(InPack()), InitData(), 0) == InitData().(pending := {0});
  }

  function Acked(): LogSt {
    Submitted().(phase := Ready(1), edge := BASE + 32769, inserted := 1, acked := 1, completed := BASE + 32769, flush := BASE + 32769,
                 permanent := BASE + 32769, durable := Blocks0(), fuaPromise := BASE + 32769)
  }

  lemma AfterFua()
    ensures Reach(Small(), BASE, WithOne(Acked()))
  {
    AfterInsert();
    TailBlocks();
    hide Reach, Bulk, BlocksOf, LoggedOf, AllLogged;
    var l, end := Inside(), BASE + 32769;
    ReachStep(Small(), BASE, WithOne(l), Log(MarkFua));
    var l1 := l.(phase := Marked(0), completed := end);
    assert Next(Small(), BASE, l, MarkFua) == l1;
    ReachStep(Small(), BASE, WithOne(l1), Log(StartFua));
    var l2 := l1.(phase := Flushing(0, Token(end, Blocks0())), flush := end);
    assert Next(Small(), BASE, l1, StartFua) == l2;
    ReachStep(Small(), BASE, WithOne(l2), Log(EndFua));
    var l3 := l2.(phase := LogSide.Flushed(0), durable := Blocks0(), permanent := end);
    assert l2.durable + Blocks0() == Blocks0();
    assert Next(Small(), BASE, l2, EndFua) == l3;
    ReachStep(Small(), BASE, WithOne(l3), Log(Ack));
    assert Next(Small(), BASE, l3, Ack) == Acked();
  }

  function Finished(): LogSt { Acked().(phase := Between, completed := RING, edge := RING, nWait := 1) }

  lemma FinishesPack()
    ensures Enabled(Small(), BASE, Acked(), FinishPack) && Next(Small(), BASE, Acked(), FinishPack) == Finished()
  {
    TailIsFua(FuaBio());
    hide Bulk, BlocksOf, LoggedOf, AllLogged, Blocks0, FuaTail, NextPack;
  }

  lemma AfterPack()
    ensures Reach(Small(), BASE, WithOne(Finished()))
  {
    AfterFua();
    FinishesPack();
    hide Reach, Enabled, Next, Acked, Finished;
    LogStep(Small(), BASE, WithOne(Acked()), FinishPack);
  }

  // The data side, with the log side finished.

  function DataAt(d: DataSt): St { Start(BASE).(l := Finished(), d := d) }

  function InFlight(hits: seq<Hit>): DataSt {
    InitData().(taken := 1, batch := 1, q := [Entry(0, Entry0().w, 0, false)], submitted := {0}, log := [0],
                pending := {0}, hits := hits)
  }

  function Mapped(): DataSt {
    InitData().(taken := 1, stage := Inserting, q := [Entry(0, Entry0().w, 0, false)], pending := {0})
  }

  lemma AfterMap()
    ensures Reach(Small(), BASE, DataAt(Mapped()))
  {
    AfterPack();
    TailBlocks();
    hide Reach, Bulk, BlocksOf, LoggedOf, AllLogged;
    var e, d := EnvOf(Finished()), InitData().(pending := {0});
    var d1 := d.(taken := 1, stage := Checking);
    assert DEnabled(e, d, Take(1)) && DNext(e, d, Take(1)) == d1;
    var d2 := d1.(stage := Inserting);
    assert DEnabled(e, d1, Permanent) && DNext(e, d1, Permanent) == d2;
    assert [] + [Entry(0, Entry0().w, 0, false)] == [Entry(0, Entry0().w, 0, false)];
    assert DEnabled(e, d2, OlInsert) && DNext(e, d2, OlInsert) == Mapped();
    hide Finished, DEnabled, DNext;
    DataStep(d, Take(1));
    DataStep(d1, Permanent);
    DataStep(d2, OlInsert);
  }

  lemma MappedDirect()
    ensures Direct(Mapped(), 1) == [0]
  {
    assert Direct(Mapped(), 0) == [];
  }

  lemma AfterSubmit()
    ensures Reach(Small(), BASE, DataAt(InFlight([])))
  {
    AfterMap();
    MappedDirect();
    hide Reach, Bulk, Finished, Direct;
    var e, d := EnvOf(Finished()), Mapped();
    var d1 := d.(list := [0], stage := Submitting);
    assert DEnabled(e, d, Sort([0])) && DNext(e, d, Sort([0])) == d1;
    var d2 := d1.(list := [], submitted := {0}, log := [0]);
    assert d1.list[1..] == [] && d1.submitted + {0} == {0} && d1.log + [0] == [0];
    assert DEnabled(e, d1, DirectSubmit) && DNext(e, d1, DirectSubmit) == d2;
    assert DEnabled(e, d2, Enqueue) && DNext(e, d2, Enqueue) == InFlight([]);
    hide DEnabled, DNext;
    DataStep(d, Sort([0]));
    DataStep(d1, DirectSubmit);
    DataStep(d2, Enqueue);
  }

  function FirstHits(n: nat): (h: seq<Hit>)
    ensures |h| == n && forall i | 0 <= i < n :: h[i] == Hit(i, 0)
  {
    seq(n, i requires 0 <= i => Hit(i, 0))
  }

  lemma DataLength(x: nat)
    ensures Covers(Entry0().w, x) <==> x < 32768
  {
  }

  /** The write reaches its sectors one after the other. */
  lemma {:induction false} AfterHits(n: nat)
    requires n <= 32768
    ensures Reach(Small(), BASE, DataAt(InFlight(FirstHits(n))))
    decreases n
  {
    hide Reach, Bulk, AllLogged;
    if n == 0 {
      AfterSubmit();
      assert FirstHits(0) == [];
    } else {
      AfterHits(n - 1);
      TailBlocks();
      DataLength(n - 1);
      assert !Reached(FirstHits(n - 1), n - 1, 0);
      hide Reached;
      var d := InFlight(FirstHits(n - 1));
      ReachStep(Small(), BASE, DataAt(d), Data(HitSector(0, n - 1)));
      assert FirstHits(n - 1) + [Hit(n - 1, 0)] == FirstHits(n);
      assert DNext(EnvOf(Finished()), d, HitSector(0, n - 1)) == InFlight(FirstHits(n));
    }
  }

  lemma AllReached(n: nat, x: nat)
    requires x < n
    ensures Reached(FirstHits(n), x, 0)
  {
    assert FirstHits(n)[x] == Hit(x, 0);
  }

  function Gone(): DataSt {
    InFlight(FirstHits(32768)).(finished := {0}, q := [], olDel := 1, gone := 1, pending := {})
  }

  lemma AfterIo()
    ensures Reach(Small(), BASE, DataAt(Finishing(FirstHits(32768))))
  {
    AfterHits(32768);
    TailBlocks();
    hide Reach, Bulk, AllLogged, Reached, FirstHits;
    var e, d := EnvOf(Finished()), InFlight(FirstHits(32768));
    forall x: nat | Covers(e.ls[0].w, x) ensures Reached(d.hits, x, 0) {
      DataLength(x);
      AllReached(32768, x);
    }
    ReachStep(Small(), BASE, DataAt(d), Data(IoDone(0)));
    assert d.finished + {0} == {0};
    assert DNext(e, d, IoDone(0)) == d.(finished := {0});
  }

  function Finishing(hits: seq<Hit>): DataSt { InFlight(hits).(finished := {0}) }

  lemma OlDeleteNext(e: Env, hits: seq<Hit>)
    ensures DEnabled(e, Finishing(hits), OlDelete)
    ensures DNext(e, Finishing(hits), OlDelete) == Finishing(hits).(q := [], olDel := 1)
  {
    var d := Finishing(hits);
    assert ReleasedIds(d) == {} && d.notify + ReleasedIds(d) == {} && Delete(d.q, 0) == [];
  }

  lemma PendDeleteNext(e: Env, hits: seq<Hit>)
    ensures DEnabled(e, Finishing(hits).(q := [], olDel := 1), PendDelete)
    ensures DNext(e, Finishing(hits).(q := [], olDel := 1), PendDelete)
         == Finishing(hits).(q := [], olDel := 1, gone := 1, pending := {})
  {
    assert Finishing(hits).pending - {0} == {};
  }

  lemma DataStep(d: DataSt, t: DStep)
    requires Reach(Small(), BASE, DataAt(d)) && DEnabled(EnvOf(Finished()), d, t)
    ensures Reach(Small(), BASE, DataAt(DNext(EnvOf(Finished()), d, t)))
  {
    hide Reach, DEnabled, DNext, Finished;
    ReachStep(Small(), BASE, DataAt(d), Data(t));
  }

  lemma AfterData()
    ensures Reach(Small(), BASE, DataAt(Gone()))
  {
    hide Reach, FirstHits, Finished, DEnabled, DNext, DataAt;
    var hits := FirstHits(32768);
    AfterIo();
    OlDeleteNext(EnvOf(Finished()), hits);
    PendDeleteNext(EnvOf(Finished()), hits);
    DataStep(Finishing(hits), OlDelete);
    DataStep(Finishing(hits).(q := [], olDel := 1), PendDelete);
  }

  /** A reachable state in which written_lsid has passed permanent_lsid: the order
      of lsid_set_is_valid does not hold. */
  lemma WrittenPassesPermanent()
    ensures var s := DataAt(Gone()).(nGc := 1, written := RING);
      Reach(Small(), BASE, s) && s.written == RING > s.l.permanent == BASE + 32769
  {
    AfterData();
    TailBlocks();
    TailIsFua(FuaBio());
    hide Reach, Bulk, AllLogged;
    ReachStep(Small(), BASE, DataAt(Gone()), Gc(1));
    assert Do(Small(), DataAt(Gone()), Gc(1)) == DataAt(Gone()).(nGc := 1, written := RING);
  }

  // ------------------------------------------- a flush that a FUA write defeats

  function OldBio(): Bio { Request(0, 1, false, false, 0) }
  function FlushBio(): Bio { Request(1, 1, true, false, 2) }
  function LateBio(): Bio { Request(2, 1, false, true, 2) }

  function OldPack(): Pack { Pack(FirstHeader(0, OldBio()), [OldBio()], false, false) }

  function BothHeader(): Header {
    FirstHeader(2, FlushBio()).(total := 2,
      records := FirstHeader(2, FlushBio()).records + [Record(0, true, false, false, 2, 1, 2, 4)])
  }

  /** The flush and, in the same pack, a FUA write. */
  function BothPack(): Pack { Pack(BothHeader(), [FlushBio(), LateBio()], false, true) }

  lemma OldPacks()
    ensures PackAll(Small().g, 0, 0, [OldBio()]) == Packing([OldPack()], None, 2, false)
  {
    hide Bulk;
    PackAllOne(OldBio(), 0);
    PackOne([], 0, OldBio(), false);
  }

  lemma LateFits()
    ensures AddBio(Small().g, FirstHeader(2, FlushBio()), LateBio()) == (BothHeader(), true)
  {
    hide Bulk;
    OneBlockEach(1);
    assert MaxRecords(1) > 2;
    var h := FirstHeader(2, FlushBio());
    assert BioLsid(h) == 4 && PaddingPb(Small().g, 4) == RING - 4;
  }

  lemma BothPacks()
    ensures PackAll(Small().g, 0, 2, [FlushBio(), LateBio()]) == Packing([BothPack()], None, 5, true)
  {
    hide Bulk;
    PackAllTwo(FlushBio(), LateBio(), 2);
    PackOne([], 2, FlushBio(), false);
    LateFits();
    assert [FlushBio()] + [LateBio()] == [FlushBio(), LateBio()];
  }

  function E0(): Logged { Logged(Write(0, Bulk(1)), 1, 1, false) }
  function E1(): Logged { Logged(Write(1, Bulk(1)), 3, 1, false) }
  function E2(): Logged { Logged(Write(2, Bulk(1)), 4, 1, true) }

  lemma OldLogged()
    ensures LoggedOf(Small().g, OldPack()) == [E0()] && BlocksOf(Small().g, OldPack()) == {0, 1}
    ensures NextLsid(OldPack().header) == 2 && AllLogged(Small().g, [OldPack()]) == [E0()]
  {
    hide Bulk;
    OneBlockEach(1);
    var recs := OldPack().header.records;
    assert recs[..0] == [] && NonPadding(recs) == [recs[0]];
    assert [E0()][..0] == [] && Span(1, 2) == {1};
    AllLoggedOne(Small().g, OldPack());
  }

  lemma OneRequest(r: Record)
    requires !r.padding
    ensures NonPadding([r]) == [r]
  {
    assert [r][..0] == [] && NonPadding([]) == [];
  }

  lemma BothRequests()
    ensures NonPadding(BothHeader().records) == BothHeader().records
  {
    hide Bulk, NonPadding;
    var recs := BothHeader().records;
    assert recs == [recs[0]] + [recs[1]];
    OneRequest(recs[0]);
    OneRequest(recs[1]);
    NonPaddingAppend([recs[0]], [recs[1]]);
  }

  lemma BothPlaces()
    ensures LoggedOf(Small().g, BothPack()) == [E1(), E2()]
  {
    BothRequests();
    OneBlockEach(1);
    hide Bulk, NonPadding;
  }

  lemma TwoRanges(a: Logged, b: Logged)
    ensures Ranges([a, b]) == Span(a.lsid, End(a)) + Span(b.lsid, End(b))
  {
    var ls := [a, b];
    assert ls[..1] == [a] && [a][..0] == [];
    assert Ranges([a]) == Ranges([a][..0]) + Span(a.lsid, End(a));
    assert Ranges(ls) == Ranges(ls[..1]) + Span(b.lsid, End(b));
  }

  lemma BothLogged()
    ensures LoggedOf(Small().g, BothPack()) == [E1(), E2()] && BlocksOf(Small().g, BothPack()) == {2, 3, 4}
    ensures AllLogged(Small().g, [BothPack()]) == [E1(), E2()]
  {
    BothPlaces();
    hide Bulk, LoggedOf, Ranges;
    TwoRanges(E1(), E2());
    AllLoggedOne(Small().g, BothPack());
    hide AllLogged;
    assert Span(3, 4) == {3} && Span(4, 5) == {4};
  }

  function OldPacked(): LogSt {
    LogSide.Init(0).(packs := [LPack(OldPack(), false, Token(0, {}), 0)], latest := 2, writes := [E0()])
  }

  function At0(l: LogSt, pending: set<nat>): St { Start(0).(l := l, d := InitData().(pending := pending)) }

  lemma SmallTaken(b: Bio)
    requires !b.discard && b.len == 1 && b.data == Bulk(1) && b.pos + b.len <= 65536
    ensures Acceptable(Small(), b)
  {
    OneBlockEach(1);
  }

  lemma AfterOldPush()
    ensures Reach(Small(), 0, At0(LogSide.Init(0).(queue := [OldBio()]), {}))
  {
    hide Reach, Bulk;
    ReachStart(Small(), 0);
    SmallTaken(OldBio());
    var s0 := Start(0);
    assert Next(Small(), 0, s0.l, Push(OldBio())) == LogSide.Init(0).(queue := [OldBio()]);
    hide Acceptable, Next;
    LogStep(Small(), 0, s0, Push(OldBio()));
  }

  lemma OldCreate()
    ensures var l := LogSide.Init(0).(queue := [OldBio()]);
      Enabled(Small(), 0, l, Create(1, false)) && Next(Small(), 0, l, Create(1, false)) == OldPacked()
  {
    OldPacks();
    OldLogged();
    hide Bulk, PackAll, AllLogged, LoggedOf, BlocksOf;
    var l := LogSide.Init(0).(queue := [OldBio()]);
    assert l.queue[..1] == [OldBio()] && l.queue[1..] == [];
    assert NewPacks(l, [OldPack()], false) == [LPack(OldPack(), false, Token(0, {}), 0)];
  }

  lemma AfterOldCreate()
    ensures Reach(Small(), 0, At0(OldPacked(), {}))
  {
    AfterOldPush();
    OldCreate();
    hide Reach, Bulk, Enabled, Next, OldPacked;
    var l := LogSide.Init(0).(queue := [OldBio()]);
    LogStep(Small(), 0, At0(l, {}), Create(1, false));
  }

  function OldDone(): LogSt {
    OldPacked().(nSub := 1, issued := {0, 1}, hdrDone := {0}, done := {0, 1}, edge := 2, inserted := 1, acked := 1,
                 completed := 2, nWait := 1)
  }

  lemma AfterOldBlocks()
    ensures Reach(Small(), 0, At0(OldPacked().(nSub := 1, issued := {0, 1}, hdrDone := {0}, done := {0, 1}), {}))
  {
    AfterOldCreate();
    OldLogged();
    hide Reach, Bulk, BlocksOf, LoggedOf, AllLogged;
    var l := OldPacked();
    ReachStep(Small(), 0, At0(l, {}), Log(SubmitNext));
    var l1 := l.(nSub := 1, issued := {0, 1});
    assert l.issued + {0, 1} == {0, 1};
    assert Next(Small(), 0, l, SubmitNext) == l1;
    ReachStep(Small(), 0, At0(l1, {}), Log(HeaderDone(0)));
    var l2 := l1.(hdrDone := {0}, done := {0});
    assert l1.hdrDone + {0} == {0} && l1.done + {0} == {0};
    assert Next(Small(), 0, l1, HeaderDone(0)) == l2;
    ReachStep(Small(), 0, At0(l2, {}), Log(BlocksDone({0, 1})));
    assert l2.done + {0, 1} == {0, 1};
    assert Next(Small(), 0, l2, BlocksDone({0, 1})) == l2.(done := {0, 1});
  }

  lemma AfterOldDone()
    ensures Reach(Small(), 0, At0(OldDone(), {0}))
  {
    AfterOldBlocks();
    OldLogged();
    hide Reach, Bulk, BlocksOf, LoggedOf, AllLogged;
    var l := OldPacked().(nSub := 1, issued := {0, 1}, hdrDone := {0}, done := {0, 1});
    ReachStep(Small(), 0, At0(l, {}), Log(BeginPack));
    var l1 := l.(phase := Ready(0), edge := 1);
    assert Next(Small(), 0, l, BeginPack) == l1;
    assert Span(1, 2) <= {0, 1};
    ReachStep(Small(), 0, At0(l1, {}), Log(InsertPending));
    var l2 := l1.(phase := Inserted(0), edge := 2, inserted := 1);
    assert Next(Small(), 0, l1, InsertPending) == l2;
    assert PendInsert(EnvOf(l1), InitData(), 0) == InitData().(pending := {0});
    ReachStep(Small(), 0, At0(l2, {0}), Log(Ack));
    var l3 := l2.(phase := Ready(1), acked := 1);
    assert Next(Small(), 0, l2, Ack) == l3;
    ReachStep(Small(), 0, At0(l3, {0}), Log(FinishPack));
    assert Next(Small(), 0, l3, FinishPack) == OldDone();
  }

  function BothPacked(): LogSt {
    OldDone().(packs := OldDone().packs + [LPack(BothPack(), false, Token(2, {0, 1}), 1)], latest := 5, flush := 2,
               writes := [E0(), E1(), E2()])
  }

  lemma AfterFlushQueued()
    ensures Reach(Small(), 0, At0(OldDone().(queue := [FlushBio(), LateBio()]), {0}))
  {
    AfterOldDone();
    SmallTaken(FlushBio());
    SmallTaken(LateBio());
    hide Reach, Bulk, Acceptable;
    var l := OldDone();
    ReachStep(Small(), 0, At0(l, {0}), Log(Push(FlushBio())));
    var l1 := l.(queue := [FlushBio()]);
    assert Next(Small(), 0, l, Push(FlushBio())) == l1;
    ReachStep(Small(), 0, At0(l1, {0}), Log(Push(LateBio())));
    assert Next(Small(), 0, l1, Push(LateBio())) == l.(queue := [FlushBio(), LateBio()]);
  }

  /** The pack holds a FUA write, so its header does not flush the log device. */
  lemma AfterBothCreate()
    ensures Reach(Small(), 0, At0(BothPacked(), {0}))
  {
    AfterFlushQueued();
    BothPacks();
    BothLogged();
    hide Reach, Bulk, Acceptable, PackAll, AllLogged, LoggedOf, BlocksOf;
    var l := OldDone().(queue := [FlushBio(), LateBio()]);
    assert l.queue[..2] == [FlushBio(), LateBio()] && l.queue[2..] == [];
    ReachStep(Small(), 0, At0(l, {0}), Log(Create(2, false)));
    assert NewPacks(l, [BothPack()], true) == [LPack(BothPack(), false, Token(2, {0, 1}), 1)];
    assert [E0()] + [E1(), E2()] == [E0(), E1(), E2()];
    assert Next(Small(), 0, l, Create(2, false)) == BothPacked();
  }

  function BothSubmitted(): LogSt {
    BothPacked().(nSub := 2, issued := {0, 1, 2, 3, 4}, hdrDone := {0, 1}, done := {0, 1, 2, 3, 4})
  }

  lemma AfterBothBlocks()
    ensures Reach(Small(), 0, At0(BothSubmitted(), {0}))
  {
    AfterBothCreate();
    BothLogged();
    hide Reach, Bulk, BlocksOf, LoggedOf, AllLogged;
    var l := BothPacked();
    ReachStep(Small(), 0, At0(l, {0}), Log(SubmitNext));
    var l1 := l.(nSub := 2, issued := {0, 1, 2, 3, 4});
    assert l.issued + {2, 3, 4} == {0, 1, 2, 3, 4};
    assert Next(Small(), 0, l, SubmitNext) == l1;
    ReachStep(Small(), 0, At0(l1, {0}), Log(HeaderDone(1)));
    var l2 := l1.(hdrDone := {0, 1}, done := {0, 1, 2});
    assert l1.hdrDone + {1} == {0, 1} && l1.done + {2} == {0, 1, 2};
    assert Next(Small(), 0, l1, HeaderDone(1)) == l2;
    ReachStep(Small(), 0, At0(l2, {0}), Log(BlocksDone({3, 4})));
    assert l2.done + {3, 4} == {0, 1, 2, 3, 4};
    assert Next(Small(), 0, l2, BlocksDone({3, 4})) == BothSubmitted();
  }

  function FlushAcked(): LogSt {
    BothSubmitted().(phase := Ready(1), edge := 4, inserted := 2, acked := 2, flushes := [AckedFlush(2, 1)])
  }

  /** A reachable state in which a flush has been acknowledged although the write
      acknowledged before it was queued is not on the medium: the pack of the flush
      also holds a FUA write, whose own flush comes only later. */
  lemma FlushNotKept()
    ensures Reach(Small(), 0, At0(FlushAcked(), {0, 1}))
    ensures !OnMedium(FlushAcked(), FlushAcked().flushes[0].stamp) && Unguarded(FlushAcked().packs[1], 1)
  {
    AfterBothBlocks();
    BothLogged();
    hide Reach, Bulk, BlocksOf, LoggedOf, AllLogged;
    var l := BothSubmitted();
    ReachStep(Small(), 0, At0(l, {0}), Log(BeginPack));
    var l1 := l.(phase := Ready(0), edge := 3);
    assert Next(Small(), 0, l, BeginPack) == l1;
    assert Span(3, 4) <= {0, 1, 2, 3, 4};
    ReachStep(Small(), 0, At0(l1, {0}), Log(InsertPending));
    var l2 := l1.(phase := Inserted(0), edge := 4, inserted := 2);
    assert Next(Small(), 0, l1, InsertPending) == l2;
    NotCovered();
    assert PendInsert(EnvOf(l1), InitData().(pending := {0}), 1) == InitData().(pending := {0, 1});
    ReachStep(Small(), 0, At0(l2, {0, 1}), Log(Ack));
    assert Next(Small(), 0, l2, Ack) == FlushAcked();
    assert 0 in FlushAcked().issued && 0 !in FlushAcked().durable;
  }

  lemma NotCovered()
    ensures !CoveredBy(E0().w, E1().w)
  {
  }
}
