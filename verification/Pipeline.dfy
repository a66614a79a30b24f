/** The whole write pipeline: the log side, the data side, garbage collection of
    packs, checkpoints and the lsid counters. module/io.c, module/super.c,
    module/checkpoint.c and module/kern.h. */
module Pipeline {
  import opened Words
  import opened LogRecord
  import opened Logpack
  import opened WritePack
  import opened Disk
  import opened LogDevice
  import opened RoundTrip
  import opened Recovery
  import opened Submit
  import opened Restart
  import opened LogSide
  import opened Promises
  import opened DataSide

  /** walb_sync_super_block under way: the written_lsid it took, as the start of
      pack `n`, and how far it got. */
  datatype SyncStage = Snapped | Issued(h: nat) | Flushed(h: nat) | OnDisk
  datatype Sync = NoSync | Syncing(n: nat, w: nat, stage: SyncStage)

  datatype St = St(
    l: LogSt,
    d: DataSt,
    nGc: nat,          // packs through gc_logpack_list
    oldest: nat, prevWritten: nat, written: nat,
    sync: Sync,
    nSuper: nat,       // the superblock's written_lsid is where this pack starts
    super: nat,        // written_lsid in the superblock on disk
    flushed: nat)      // hits of the data device known to be on its medium

  /** As walb_dev starts after a replay that ended at `base`. */
  function Start(base: nat): St {
    St(LogSide.Init(base), InitData(), 0, base, base, base, NoSync, 0, base, 0)
  }

  function EnvOf(l: LogSt): Env {
    Env(l.writes, l.inserted, l.acked, l.permanent)
  }

  datatype PStep =
    | Log(s: LStep)
    | Data(t: DStep)
    | Gc(n: nat)
    | SyncSnap
    | SyncIssue
    | SyncFlushed
    | SuperWrite
    | SyncEnd
    | SetOldest(x: nat)

  ghost predicate Can(c: Setup, s: St, p: PStep) {
    match p
    case Log(t) => Enabled(c, s.prevWritten, s.l, t) && (t.InsertPending? ==> s.l.inserted < |s.l.writes|)
    case Data(t) => DEnabled(EnvOf(s.l), s.d, t)
    case Gc(n) => 0 < n && s.nGc + n <= s.l.nWait <= |s.l.packs| && CountBefore(c, s.l, s.nGc + n) <= s.d.gone
    case SyncSnap => s.sync.NoSync?
    case SyncIssue => s.sync.Syncing? && s.sync.stage.Snapped?
    case SyncFlushed => s.sync.Syncing? && s.sync.stage.Issued?
    case SuperWrite => s.sync.Syncing? && s.sync.stage.Flushed?
    case SyncEnd => s.sync.Syncing? && s.sync.stage.OnDisk?
    case SetOldest(x) => s.oldest <= x <= s.prevWritten
  }

  function Do(c: Setup, s: St, p: PStep): St
    requires Can(c, s, p)
  {
    match p
    case Log(t) =>
      s.(l := Next(c, s.prevWritten, s.l, t),
         d := if t.InsertPending? then PendInsert(EnvOf(s.l), s.d, s.l.inserted) else s.d)
    case Data(t) => s.(d := DNext(EnvOf(s.l), s.d, t))
    case Gc(n) => s.(nGc := s.nGc + n, written := NextLsid(s.l.packs[s.nGc + n - 1].p.header))
    case SyncSnap => s.(sync := Syncing(s.nGc, s.written, Snapped))
    case SyncIssue => s.(sync := s.sync.(stage := Issued(|s.d.hits|)))
    case SyncFlushed => s.(sync := s.sync.(stage := SyncStage.Flushed(s.sync.stage.h)), flushed := Max(s.flushed, s.sync.stage.h))
    case SuperWrite => s.(sync := s.sync.(stage := OnDisk), nSuper := s.sync.n, super := s.sync.w)
    case SyncEnd => s.(sync := NoSync, prevWritten := s.sync.w)
    case SetOldest(x) => s.(oldest := x)
  }

  // --------------------------------------------------------------- invariants

  /** The first `n` writes are in the first `h` hits entirely. */
  ghost predicate HitBy(ls: seq<Logged>, hits: seq<Hit>, h: nat, n: nat) {
    h <= |hits| && forall k, x: nat | 0 <= k < |ls| && k < n && Covers(ls[k].w, x) :: Reached(hits[..h], x, k)
  }

  /** All writes of the first `n` packs are through the data side. */
  ghost predicate PacksGone(c: Setup, s: St, n: nat) {
    n <= s.l.nWait <= |s.l.packs| && CountBefore(c, s.l, n) <= s.d.gone
  }

  /** The counters behind the data device. */
  ghost predicate GcOk(c: Setup, s: St) {
    && PacksGone(c, s, s.nGc) && s.nSuper <= s.nGc
    && s.written == StartOf(s.l, s.nGc) && s.super == StartOf(s.l, s.nSuper)
    && s.oldest <= s.prevWritten <= s.super
    && s.flushed <= |s.d.hits| && HitBy(s.l.writes, s.d.hits, s.flushed, CountBefore(c, s.l, s.nSuper))
  }

  ghost predicate SyncOk(c: Setup, s: St)
    requires s.l.nWait <= |s.l.packs| && s.nGc <= s.l.nWait
  {
    s.sync.Syncing? ==>
      && s.nSuper <= s.sync.n <= s.nGc && s.sync.w == StartOf(s.l, s.sync.n)
      && match s.sync.stage {
           case Snapped => true
           case Issued(h) => HitBy(s.l.writes, s.d.hits, h, CountBefore(c, s.l, s.sync.n))
           case Flushed(h) => h <= s.flushed && HitBy(s.l.writes, s.d.hits, h, CountBefore(c, s.l, s.sync.n))
           case OnDisk => s.nSuper == s.sync.n
         }
  }

  /** No submitted block is a ring length or more ahead of prev_written. */
  ghost predicate RingOk(c: Setup, s: St) {
    forall m | m in s.l.issued :: m < s.prevWritten + c.g.ring
  }

  ghost predicate PInv(c: Setup, s: St) {
    && Inv(c, s.l) && Promised(s.l) && DInv(EnvOf(s.l), s.d)
    && GcOk(c, s) && SyncOk(c, s) && RingOk(c, s)
  }

  lemma StartInv(c: Setup, base: u64)
    ensures PInv(c, Start(base))
  {
    InitInv(c, base);
    InitPromised(base);
    InitDInv(EnvOf(LogSide.Init(base)));
    assert Packs(LogSide.Init(base))[..0] == [];
    hide Inv, Promised, DInv;
  }

  // -------------------------------------------------- order of the log's ends

  lemma {:induction false} EndsOrdered(g: Geometry, ps: seq<Pack>, start: nat, end: nat, j: nat, k: nat)
    requires GoodPacks(g, ps) && Chained(ps, start, end) && j < k < |AllLogged(g, ps)|
    ensures End(AllLogged(g, ps)[j]) <= AllLogged(g, ps)[k].lsid <= End(AllLogged(g, ps)[k])
    decreases |ps|
  {
    hide PackOk, NoDiscards, LoggedOf, GoodPacks, Chained, NextLsid;
    assert ps != [];
    LoggedAt(g, ps, j);
    LoggedAt(g, ps, k);
    hide AllLogged;
    GoodTail(g, ps);
    ChainTail(ps, start, end);
    LastEnds(g, ps[0]);
    var n := |LoggedOf(g, ps[0])|;
    if k < n {
      LoggedOrder(g, ps[0], j, k);
      BetweenRequests(g, ps[0], k);
    } else if n <= j {
      EndsOrdered(g, ps[1..], NextLsid(ps[0].header), end, j - n, k - n);
    } else {
      LoggedInside(g, ps[1..], NextLsid(ps[0].header), end, k - n);
    }
  }

  lemma WritesOrdered(c: Setup, l: LogSt, j: nat, k: nat)
    requires Shape(c, l) && j < k < |l.writes|
    ensures End(l.writes[j]) <= l.writes[k].lsid <= End(l.writes[k])
  {
    ShapeFacts(c, l);
    hide Shape, GoodPacks, Chained, AllLogged, AllFit;
    EndsOrdered(c.g, Packs(l), l.base, l.latest, j, k);
  }

  // ------------------------------------------------------------- small frames

  lemma CountGrows(c: Setup, l: LogSt, l2: LogSt, n: nat)
    requires Grows(l, l2) && n <= |l.packs|
    ensures CountBefore(c, l2, n) == CountBefore(c, l, n)
  {
    hide CountBefore;
    CreateCount(c, l, l2, n);
  }

  lemma CountMonotone(c: Setup, l: LogSt, n: nat, m: nat)
    requires n <= m <= |l.packs|
    ensures CountBefore(c, l, n) <= CountBefore(c, l, m)
  {
    var ps := Packs(l);
    assert ps[..m] == ps[..n] + ps[n..m];
    AllLoggedConcat(c.g, ps[..n], ps[n..m]);
  }

  lemma ShapeEnd(c: Setup, l: LogSt, n: nat)
    requires Shape(c, l) && n == |l.packs|
    ensures l.latest == if n == 0 then l.base else NextLsid(l.packs[n - 1].p.header)
  {
    ShapeFacts(c, l);
    hide Shape, NextLsid;
    assert n > 0 ==> Packs(l)[n - 1] == l.packs[n - 1].p;
  }

  lemma StartIs(c: Setup, l: LogSt, n: nat)
    requires Shape(c, l) && n <= |l.packs|
    ensures StartOf(l, n) == if n == 0 then l.base else NextLsid(l.packs[n - 1].p.header)
  {
    if n == |l.packs| {
      ShapeEnd(c, l, n);
    } else if n > 0 {
      ShapePack(c, l, n - 1);
    } else {
      ShapeFacts(c, l);
      assert Packs(l)[0] == l.packs[0].p;
    }
  }

  /** Where a pack starts does not change when more packs are created. */
  lemma StartStays(c: Setup, l: LogSt, l2: LogSt, n: nat)
    requires Grows(l, l2) && Shape(c, l) && Shape(c, l2) && n <= |l.packs|
    ensures StartOf(l2, n) == StartOf(l, n)
  {
    hide Shape, NextLsid, StartOf;
    StartIs(c, l, n);
    StartIs(c, l2, n);
  }

  lemma HitByMoreWrites(ls: seq<Logged>, ls2: seq<Logged>, hits: seq<Hit>, h: nat, n: nat)
    requires HitBy(ls, hits, h, n) && ls <= ls2 && n <= |ls|
    ensures HitBy(ls2, hits, h, n)
  {
    hide Reached, Covers;
  }

  lemma ReachedPrefix(hits: seq<Hit>, h: nat, g: nat, x: nat, k: nat)
    requires h <= g <= |hits| && Reached(hits[..h], x, k)
    ensures Reached(hits[..g], x, k)
  {
    var a :| 0 <= a < h && hits[..h][a] == Hit(x, k);
    assert hits[..g][a] == Hit(x, k);
  }

  lemma HitByLater(ls: seq<Logged>, hits: seq<Hit>, h: nat, g: nat, n: nat)
    requires HitBy(ls, hits, h, n) && h <= g <= |hits|
    ensures HitBy(ls, hits, g, n)
  {
    hide Reached, Covers;
    forall k, x: nat | 0 <= k < |ls| && k < n && Covers(ls[k].w, x) ensures Reached(hits[..g], x, k) {
      ReachedPrefix(hits, h, g, x, k);
    }
  }

  lemma HitByMoreHits(ls: seq<Logged>, hits: seq<Hit>, hits2: seq<Hit>, h: nat, n: nat)
    requires HitBy(ls, hits, h, n) && hits <= hits2
    ensures HitBy(ls, hits2, h, n)
  {
    assert hits2[..h] == hits[..h];
    hide Reached, Covers;
  }

  // ----------------------------------------------------------------- log steps

  lemma InsertedSame(c: Setup, pw: nat, l: LogSt, s: LStep)
    requires Enabled(c, pw, l, s) && !s.InsertPending?
    ensures Next(c, pw, l, s).inserted == l.inserted
  {
    hide LoggedOf, AckedTo, PackAll, AllLogged, NewPacks, BlocksOf, NextLsid, Acceptable, Room, Max;
  }

  lemma InsertMoves(c: Setup, pw: nat, l: LogSt)
    requires Enabled(c, pw, l, InsertPending)
    ensures EnvOf(Next(c, pw, l, InsertPending)) == EnvOf(l).(inserted := l.inserted + 1)
  {
    hide LoggedOf;
  }

  lemma InvAcked(c: Setup, l: LogSt)
    requires Inv(c, l)
    ensures l.acked <= l.inserted <= |l.writes|
  {
    hide Shape, Position, IssuedOk, HeadersOk, FlushOk;
    AckedComplete(c, l);
  }

  lemma LogKeepsData(c: Setup, s: St, t: LStep)
    requires Can(c, s, Log(t)) && Inv(c, Next(c, s.prevWritten, s.l, t)) && DInv(EnvOf(s.l), s.d)
    requires Grows(s.l, Next(c, s.prevWritten, s.l, t))
    ensures var s2 := Do(c, s, Log(t)); DInv(EnvOf(s2.l), s2.d)
  {
    hide Inv, Next, Enabled, DInv;
    if t.InsertPending? {
      InsertMoves(c, s.prevWritten, s.l);
      DataSide.InsertInv(EnvOf(s.l), s.d);
    } else {
      InsertedSame(c, s.prevWritten, s.l, t);
      InvAcked(c, Next(c, s.prevWritten, s.l, t));
      EnvInv(EnvOf(s.l), EnvOf(Next(c, s.prevWritten, s.l, t)), s.d);
    }
  }

  /** Moving on of either side leaves the counters behind the data device right. */
  ghost predicate Moves(c: Setup, s: St, s2: St) {
    && Shape(c, s.l) && Shape(c, s2.l) && Grows(s.l, s2.l) && s.d.gone <= s2.d.gone && s.d.hits <= s2.d.hits
    && s2 == s.(l := s2.l, d := s2.d)
  }

  lemma MovesHit(c: Setup, s: St, s2: St, h: nat, n: nat)
    requires Moves(c, s, s2) && n <= |s.l.packs| && HitBy(s.l.writes, s.d.hits, h, CountBefore(c, s.l, n))
    ensures HitBy(s2.l.writes, s2.d.hits, h, CountBefore(c, s2.l, n))
  {
    CountGrows(c, s.l, s2.l, n);
    ShapeFacts(c, s.l);
    hide Shape, HitBy, CountBefore;
    SplitWrites(c, s.l, n);
    HitByMoreWrites(s.l.writes, s2.l.writes, s.d.hits, h, CountBefore(c, s.l, n));
    HitByMoreHits(s2.l.writes, s.d.hits, s2.d.hits, h, CountBefore(c, s.l, n));
  }

  lemma MovesGc(c: Setup, s: St, s2: St)
    requires Moves(c, s, s2) && GcOk(c, s) && s2.l.nWait <= |s2.l.packs|
    ensures GcOk(c, s2)
  {
    hide HitBy, CountBefore, StartOf, Shape;
    CountGrows(c, s.l, s2.l, s.nGc);
    StartStays(c, s.l, s2.l, s.nGc);
    StartStays(c, s.l, s2.l, s.nSuper);
    MovesHit(c, s, s2, s.flushed, s.nSuper);
  }

  lemma MovesSync(c: Setup, s: St, s2: St)
    requires Moves(c, s, s2) && GcOk(c, s) && SyncOk(c, s) && s2.l.nWait <= |s2.l.packs|
    ensures s2.nGc <= s2.l.nWait && SyncOk(c, s2)
  {
    hide HitBy, CountBefore, StartOf, Shape;
    if s.sync.Syncing? {
      StartStays(c, s.l, s2.l, s.sync.n);
      if s.sync.stage.Issued? || s.sync.stage.Flushed? {
        MovesHit(c, s, s2, s.sync.stage.h, s.sync.n);
      }
    }
  }

  lemma IssuedSame(c: Setup, pw: nat, l: LogSt, s: LStep)
    requires Enabled(c, pw, l, s) && !s.SubmitNext?
    ensures Next(c, pw, l, s).issued == l.issued
  {
    hide LoggedOf, AckedTo, PackAll, AllLogged, NewPacks, BlocksOf, NextLsid, Acceptable, Room, Max;
  }

  /** A pack is submitted only once the whole log from prev_written on fits the
      ring. */
  lemma SubmitRing(c: Setup, s: St)
    requires Shape(c, s.l) && RingOk(c, s) && Can(c, s, Log(SubmitNext))
    ensures RingOk(c, Do(c, s, Log(SubmitNext)))
  {
    var s2, i := Do(c, s, Log(SubmitNext)), s.l.nSub;
    hide BlocksOf;
    StartMono(c, s.l, i + 1, |s.l.packs|);
    hide Shape;
    forall m | m in s2.l.issued ensures m < s2.prevWritten + c.g.ring {
      if m !in s.l.issued {
        BlocksAreInside(c, s.l, i, m);
      }
    }
  }

  lemma LogRing(c: Setup, s: St, t: LStep)
    requires Shape(c, s.l) && RingOk(c, s) && Can(c, s, Log(t))
    ensures RingOk(c, Do(c, s, Log(t)))
  {
    if t.SubmitNext? {
      SubmitRing(c, s);
    } else {
      IssuedSame(c, s.prevWritten, s.l, t);
      hide Enabled, Next, Shape;
    }
  }

  lemma PInvParts(c: Setup, s: St)
    requires PInv(c, s)
    ensures Inv(c, s.l) && Shape(c, s.l) && Promised(s.l) && DInv(EnvOf(s.l), s.d) && GcOk(c, s) && SyncOk(c, s) && RingOk(c, s)
  {
    InvShape(c, s.l);
    hide Inv, Promised, DInv, GcOk, SyncOk, RingOk;
  }

  lemma LogStepInv(c: Setup, s: St, t: LStep)
    requires c.g.ring >= MAX_TOTAL_IO_SIZE && PInv(c, s) && Can(c, s, Log(t))
    ensures PInv(c, Do(c, s, Log(t)))
  {
    hide Inv, Shape, Promised, DInv, GcOk, RingOk, SyncOk, Enabled, Next, Grows;
    PInvParts(c, s);
    var s2 := Do(c, s, Log(t));
    StepInv(c, s.prevWritten, s.l, t);
    PromisedStep(c, s.prevWritten, s.l, t);
    StepGrows(c, s.prevWritten, s.l, t);
    LogKeepsData(c, s, t);
    LogRing(c, s, t);
    InvShape(c, s2.l);
    InvPosition(c, s2.l);
    MovesGc(c, s, s2);
    MovesSync(c, s, s2);
  }

  // ---------------------------------------------------------------- data steps

  lemma DataMoves(e: Env, d: DataSt, t: DStep)
    requires DEnabled(e, d, t)
    ensures d.gone <= DNext(e, d, t).gone && d.hits <= DNext(e, d, t).hits
  {
    hide ReleasedIds, Reached, Covers;
  }

  lemma EndsAreOrdered(c: Setup, l: LogSt)
    requires Shape(c, l)
    ensures forall j, k | 0 <= j <= k < |l.writes| :: End(l.writes[j]) <= End(l.writes[k])
  {
    hide Shape;
    forall j, k | 0 <= j <= k < |l.writes| ensures End(l.writes[j]) <= End(l.writes[k]) {
      if j < k {
        WritesOrdered(c, l, j, k);
      }
    }
  }

  lemma StaysGrown(l: LogSt)
    ensures Grows(l, l)
  {
  }

  lemma DataStepInv(c: Setup, s: St, t: DStep)
    requires PInv(c, s) && Can(c, s, Data(t))
    ensures PInv(c, Do(c, s, Data(t)))
  {
    hide Inv, Shape, Promised, DInv, GcOk, RingOk, SyncOk, DEnabled, DNext, Grows;
    PInvParts(c, s);
    var s2 := Do(c, s, Data(t));
    EndsAreOrdered(c, s.l);
    DStepInv(EnvOf(s.l), s.d, t);
    DataMoves(EnvOf(s.l), s.d, t);
    StaysGrown(s.l);
    InvPosition(c, s.l);
    MovesGc(c, s, s2);
    MovesSync(c, s, s2);
    RingSame(c, s, s2);
  }

  lemma RingSame(c: Setup, s: St, s2: St)
    requires RingOk(c, s) && s2.l.issued == s.l.issued && s.prevWritten <= s2.prevWritten
    ensures RingOk(c, s2)
  {
  }

  // ------------------------------------------------------- gc and checkpoints

  lemma GcMoves(c: Setup, s: St, n: nat)
    requires Shape(c, s.l) && GcOk(c, s) && SyncOk(c, s) && Can(c, s, Gc(n))
    ensures GcOk(c, Do(c, s, Gc(n))) && SyncOk(c, Do(c, s, Gc(n)))
  {
    hide HitBy, CountBefore, NextLsid, StartOf, Shape;
    StartIs(c, s.l, s.nGc + n);
  }

  lemma GcSame(c: Setup, s: St, n: nat)
    requires Can(c, s, Gc(n))
    ensures Do(c, s, Gc(n)).l == s.l && Do(c, s, Gc(n)).d == s.d && Do(c, s, Gc(n)).prevWritten == s.prevWritten
  {
    hide CountBefore, NextLsid;
  }

  lemma GcStepInv(c: Setup, s: St, n: nat)
    requires PInv(c, s) && Can(c, s, Gc(n))
    ensures PInv(c, Do(c, s, Gc(n)))
  {
    hide Inv, Promised, DInv, RingOk, Shape, GcOk, SyncOk, Can, Do;
    PInvParts(c, s);
    GcSame(c, s, n);
    GcMoves(c, s, n);
    RingSame(c, s, Do(c, s, Gc(n)));
  }

  /** All writes that are through the wait task have reached every sector. */
  lemma GoneAreHit(e: Env, d: DataSt, n: nat)
    requires DInv(e, d) && n <= d.gone
    ensures HitBy(e.ls, d.hits, |d.hits|, n)
  {
    hide Reached, Covers, MapOk, PendOk;
    assert d.hits[..|d.hits|] == d.hits;
    forall k, x: nat | 0 <= k < |e.ls| && k < n && Covers(e.ls[k].w, x) ensures Reached(d.hits[..|d.hits|], x, k) {
      assert k in d.finished;
    }
  }

  /** A data device flush covers every pack that was written when the checkpoint
      took written_lsid. */
  lemma IssueOk(c: Setup, s: St)
    requires GcOk(c, s) && SyncOk(c, s) && DInv(EnvOf(s.l), s.d) && Can(c, s, SyncIssue)
    ensures SyncOk(c, Do(c, s, SyncIssue))
  {
    hide DInv, HitBy, CountBefore;
    CountMonotone(c, s.l, s.sync.n, s.nGc);
    GoneAreHit(EnvOf(s.l), s.d, CountBefore(c, s.l, s.sync.n));
  }

  lemma FlushedOk(c: Setup, s: St)
    requires GcOk(c, s) && SyncOk(c, s) && Can(c, s, SyncFlushed)
    ensures GcOk(c, Do(c, s, SyncFlushed)) && SyncOk(c, Do(c, s, SyncFlushed))
  {
    var s2 := Do(c, s, SyncFlushed);
    HitByInside(s.l.writes, s.d.hits, s.sync.stage.h, CountBefore(c, s.l, s.sync.n));
    HitByLater(s.l.writes, s.d.hits, s.flushed, s2.flushed, CountBefore(c, s.l, s.nSuper));
    hide HitBy, CountBefore, StartOf;
  }

  lemma HitByInside(ls: seq<Logged>, hits: seq<Hit>, h: nat, n: nat)
    requires HitBy(ls, hits, h, n)
    ensures h <= |hits|
  {
  }

  /** The superblock advances only over packs whose writes are all on the data
      device's medium. */
  lemma SuperOk(c: Setup, s: St)
    requires Shape(c, s.l) && GcOk(c, s) && SyncOk(c, s) && Can(c, s, SuperWrite)
    ensures GcOk(c, Do(c, s, SuperWrite)) && SyncOk(c, Do(c, s, SuperWrite))
  {
    hide HitBy, CountBefore, Shape, StartOf;
    HitByLater(s.l.writes, s.d.hits, s.sync.stage.h, s.flushed, CountBefore(c, s.l, s.sync.n));
    StartMono(c, s.l, s.nSuper, s.sync.n);
  }

  lemma SyncStepInv(c: Setup, s: St, p: PStep)
    requires PInv(c, s) && Can(c, s, p) && (p.SyncSnap? || p.SyncIssue? || p.SyncFlushed? || p.SuperWrite? || p.SyncEnd? || p.SetOldest?)
    ensures PInv(c, Do(c, s, p))
  {
    hide Inv, Promised, DInv, RingOk, Shape, HitBy, CountBefore, StartOf;
    PInvParts(c, s);
    RingSame(c, s, Do(c, s, p));
    if p.SyncIssue? {
      IssueOk(c, s);
    } else if p.SyncFlushed? {
      FlushedOk(c, s);
    } else if p.SuperWrite? {
      SuperOk(c, s);
    }
  }

  /** Every step of every task keeps the invariant. */
  lemma PStepInv(c: Setup, s: St, p: PStep)
    requires c.g.ring >= MAX_TOTAL_IO_SIZE && PInv(c, s) && Can(c, s, p)
    ensures PInv(c, Do(c, s, p))
  {
    hide PInv, Can, Do;
    match p
    case Log(t) => LogStepInv(c, s, t);
    case Data(t) => DataStepInv(c, s, t);
    case Gc(n) => GcStepInv(c, s, n);
    case SyncSnap => SyncStepInv(c, s, p);
    case SyncIssue => SyncStepInv(c, s, p);
    case SyncFlushed => SyncStepInv(c, s, p);
    case SuperWrite => SyncStepInv(c, s, p);
    case SyncEnd => SyncStepInv(c, s, p);
    case SetOldest(_) => SyncStepInv(c, s, p);
  }

  ghost predicate Follows(c: Setup, s: St, s2: St, p: PStep) {
    Can(c, s, p) && s2 == Do(c, s, p)
  }

  ghost predicate OneStep(c: Setup, s: St, s2: St) {
    exists p :: Follows(c, s, s2, p)
  }

  /** A run from the start of the device: each state follows from the one before
      it by a step of some task. */
  ghost predicate Run(c: Setup, base: u64, run: seq<St>) {
    && run != [] && run[0] == Start(base)
    && forall i | 0 < i < |run| :: OneStep(c, run[i - 1], run[i])
  }

  /** Every state of every run satisfies the invariant. */
  lemma {:induction false} RunInv(c: Setup, base: u64, run: seq<St>, i: nat)
    requires c.g.ring >= MAX_TOTAL_IO_SIZE && Run(c, base, run) && i < |run|
    ensures PInv(c, run[i])
    decreases i
  {
    hide PInv, Can, Do;
    if i == 0 {
      StartInv(c, base);
    } else {
      RunInv(c, base, run, i - 1);
      assert OneStep(c, run[i - 1], run[i]);
      var p :| Follows(c, run[i - 1], run[i], p);
      PStepInv(c, run[i - 1], p);
    }
  }
}
