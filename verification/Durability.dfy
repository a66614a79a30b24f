/** What an acknowledgement is worth: after a crash at any point of any run, replay
    brings back every FUA write and every write a flush stands for. */
module Durability {
  import opened Words
  import opened LogRecord
  import opened Logpack
  import opened WritePack
  import opened Disk
  import opened LogDevice
  import opened Redo
  import opened RoundTrip
  import opened Recovery
  import opened Submit
  import opened LogSide
  import opened Promises
  import opened DataSide
  import opened Pipeline
  import opened Crash
  import opened Requests

  // ----------------------------------------------------- what is acknowledged

  /** The stamp a request is given covers all writes acknowledged so far. */
  lemma AckedBelow(c: Setup, l: LogSt, k: nat)
    requires Shape(c, l) && k < l.acked <= |l.writes|
    ensures End(l.writes[k]) <= AckedTo(l)
  {
    hide Shape;
    if k < l.acked - 1 {
      WritesOrdered(c, l, k, l.acked - 1);
    }
  }

  /** The flush that came first in pack `q` has been acknowledged. */
  predicate FlushAcked(l: LogSt, q: nat) {
    && q < |l.packs| && l.packs[q].p.bios != [] && l.packs[q].p.bios[0].flush
    && (q < l.nWait || (q == l.nWait && !l.phase.Between? && (l.packs[q].p.header.records == [] || 0 < l.phase.j)))
  }

  /** Acknowledged FUA writes are covered by fuaPromise. */
  ghost predicate FuaNoted(l: LogSt) {
    l.acked <= |l.writes| && forall k | 0 <= k < l.acked && l.writes[k].fua :: End(l.writes[k]) <= l.fuaPromise
  }

  ghost predicate FlushNoted(l: LogSt, q: nat) {
    FlushAcked(l, q) ==> AckedFlush(l.packs[q].p.bios[0].stamp, q) in l.flushes
  }

  /** So are acknowledged flushes by `flushes`. */
  ghost predicate FlushesNoted(l: LogSt) {
    forall q | 0 <= q < |l.packs| :: FlushNoted(l, q)
  }

  lemma AckedSame(c: Setup, pw: nat, l: LogSt, t: LStep)
    requires Enabled(c, pw, l, t) && !t.Ack?
    ensures Next(c, pw, l, t).acked == l.acked
  {
    hide LoggedOf, AckedTo, PackAll, AllLogged, NewPacks, BlocksOf, NextLsid, Acceptable, Room, Max;
  }

  lemma AckMoves(c: Setup, pw: nat, l: LogSt)
    requires Enabled(c, pw, l, Ack)
    ensures var l2 := Next(c, pw, l, Ack); l2.acked == l.acked + 1 && l2.writes == l.writes
    ensures l.nWait < |l.packs| && !l.phase.Between? && !l.phase.Ready? && l.phase.j < |CurLogged(c, l)|
  {
    hide LoggedOf, Max;
  }

  /** The write that is being acknowledged. */
  lemma AckIs(c: Setup, l: LogSt)
    requires Shape(c, l) && l.nWait < |l.packs| && Position(c, l)
    requires !l.phase.Between? && !l.phase.Ready? && l.phase.j < |CurLogged(c, l)|
    ensures l.acked < |l.writes| && l.writes[l.acked] == CurLogged(c, l)[l.phase.j]
  {
    AckAt(c, l);
    hide Position, Shape, LoggedOf, CountBefore;
    WriteAt(c, l, l.nWait, l.phase.j);
  }

  lemma AckAt(c: Setup, l: LogSt)
    requires l.nWait < |l.packs| && Position(c, l) && !l.phase.Between? && !l.phase.Ready?
    ensures l.acked == CountBefore(c, l, l.nWait) + l.phase.j
  {
    hide LoggedOf, CountBefore, PartEdge;
  }

  lemma FuaNotedMore(l: LogSt, l2: LogSt)
    requires FuaNoted(l) && l.writes <= l2.writes && l.fuaPromise <= l2.fuaPromise
    requires l2.acked == l.acked
             || (l2.acked == l.acked + 1 <= |l2.writes| && (l2.writes[l.acked].fua ==> End(l2.writes[l.acked]) <= l2.fuaPromise))
    ensures FuaNoted(l2)
  {
  }

  lemma GrowsFua(l: LogSt, l2: LogSt)
    requires Grows(l, l2)
    ensures l.writes <= l2.writes && l.fuaPromise <= l2.fuaPromise
  {
  }

  lemma FuaNotedStep(c: Setup, pw: nat, l: LogSt, t: LStep)
    requires c.g.ring >= MAX_TOTAL_IO_SIZE && Inv(c, l) && Shape(c, l) && l.nWait <= |l.packs| && Position(c, l)
    requires Enabled(c, pw, l, t) && FuaNoted(l)
    ensures FuaNoted(Next(c, pw, l, t))
  {
    hide Inv, Shape, Position, Enabled, Next, FuaNoted, LoggedOf;
    StepGrows(c, pw, l, t);
    GrowsFua(l, Next(c, pw, l, t));
    if t.Ack? {
      AckMoves(c, pw, l);
      AckPromise(c, pw, l);
      AckIs(c, l);
    } else {
      AckedSame(c, pw, l, t);
    }
    FuaNotedMore(l, Next(c, pw, l, t));
  }

  // ------------------------------------------------------------------ flushes

  lemma HasRequests(g: Geometry, p: Pack)
    requires PackOk(g, p) && p.header.records != []
    ensures |LoggedOf(g, p)| > 0
  {
  }

  /** The wait task is where it was, or in another stage of the same request. */
  lemma SamePlace(c: Setup, pw: nat, l: LogSt, t: LStep)
    requires Enabled(c, pw, l, t) && !t.Ack? && !t.BeginPack? && !t.FinishPack? && !t.Create?
    ensures var l2 := Next(c, pw, l, t);
      && l2.packs == l.packs && l2.nWait == l.nWait && (l2.phase.Between? <==> l.phase.Between?)
      && (!l.phase.Between? ==> l2.phase.j == l.phase.j)
  {
    hide LoggedOf, AckedTo, BlocksOf, Acceptable, Max;
  }

  lemma FinishPlace(c: Setup, pw: nat, l: LogSt)
    requires Enabled(c, pw, l, FinishPack)
    ensures var l2 := Next(c, pw, l, FinishPack);
      && l2.packs == l.packs && l2.nWait == l.nWait + 1 <= |l.packs| && l2.phase.Between? && l2.flushes == l.flushes
      && l.phase.Ready? && l.phase.j == |CurLogged(c, l)|
  {
    hide LoggedOf;
  }

  lemma BeginPlace(c: Setup, pw: nat, l: LogSt)
    requires Enabled(c, pw, l, BeginPack)
    ensures var l2 := Next(c, pw, l, BeginPack); l2.packs == l.packs && l2.nWait == l.nWait && l2.phase == Ready(0)
  {
    hide HasHeaderIo, Max;
  }

  lemma CreatePlace(c: Setup, pw: nat, l: LogSt, n: nat, auto: bool)
    requires Enabled(c, pw, l, Create(n, auto))
    ensures var l2 := Next(c, pw, l, Create(n, auto));
      l2.phase == l.phase && l2.nWait == l.nWait && l2.nSub == l.nSub && l2.flushes == l.flushes
  {
    hide PackAll, NewPacks, AllLogged, Room;
  }

  lemma NotedBegin(c: Setup, pw: nat, l: LogSt, q: nat)
    requires Enabled(c, pw, l, BeginPack) && q < |l.packs| && FlushNoted(l, q)
    ensures FlushNoted(Next(c, pw, l, BeginPack), q)
  {
    BeginPromise(c, pw, l);
    BeginPlace(c, pw, l);
    hide Enabled, Next, HasHeaderIo;
  }

  lemma NotedAck(c: Setup, pw: nat, l: LogSt, q: nat)
    requires Enabled(c, pw, l, Ack) && q < |l.packs| && FlushNoted(l, q)
    ensures FlushNoted(Next(c, pw, l, Ack), q)
  {
    AckPromise(c, pw, l);
    hide Enabled, Next, LoggedOf;
  }

  lemma NotedFinish(c: Setup, pw: nat, l: LogSt, q: nat)
    requires Enabled(c, pw, l, FinishPack) && q < |l.packs| && FlushNoted(l, q)
    requires PackOk(c.g, l.packs[l.nWait].p)
    ensures FlushNoted(Next(c, pw, l, FinishPack), q)
  {
    FinishPlace(c, pw, l);
    if l.packs[l.nWait].p.header.records != [] {
      HasRequests(c.g, l.packs[l.nWait].p);
    }
    hide Enabled, Next, LoggedOf, PackOk;
  }

  lemma NotedCreate(c: Setup, pw: nat, l: LogSt, n: nat, auto: bool, q: nat)
    requires Enabled(c, pw, l, Create(n, auto)) && l.nWait <= |l.packs| && (q < |l.packs| ==> FlushNoted(l, q))
    requires !l.phase.Between? ==> l.nWait < |l.packs|
    requires q < |l.packs| ==> q < |Next(c, pw, l, Create(n, auto)).packs| && Next(c, pw, l, Create(n, auto)).packs[q] == l.packs[q]
    ensures FlushNoted(Next(c, pw, l, Create(n, auto)), q)
  {
    CreatePlace(c, pw, l, n, auto);
    hide Enabled, Next;
  }

  lemma NotedSame(c: Setup, pw: nat, l: LogSt, t: LStep, q: nat)
    requires Enabled(c, pw, l, t) && !t.Ack? && !t.BeginPack? && !t.FinishPack? && !t.Create?
    requires q < |l.packs| && FlushNoted(l, q)
    ensures FlushNoted(Next(c, pw, l, t), q)
  {
    SamePlace(c, pw, l, t);
    PromisesStay(c, pw, l, t);
    hide Enabled, Next;
  }

  lemma SamePacks(c: Setup, pw: nat, l: LogSt, t: LStep)
    requires Enabled(c, pw, l, t) && !t.Create?
    ensures Next(c, pw, l, t).packs == l.packs
  {
    hide LoggedOf, AckedTo, BlocksOf, Acceptable, Max, HasHeaderIo;
  }

  lemma FlushNotedStep(c: Setup, pw: nat, l: LogSt, t: LStep, q: nat)
    requires Shape(c, l) && l.nWait <= l.nSub <= |l.packs| && Position(c, l)
    requires Enabled(c, pw, l, t) && FlushesNoted(l) && q < |Next(c, pw, l, t).packs|
    requires Grows(l, Next(c, pw, l, t))
    ensures FlushNoted(Next(c, pw, l, t), q)
  {
    hide Shape, Position, Enabled, Next, Grows, FlushNoted, LoggedOf;
    if t.Create? {
      GrowsFlushes(l, Next(c, pw, l, t), q);
      if !l.phase.Between? {
        ReadyIsSubmitted(c, l);
      }
      NotedCreate(c, pw, l, t.n, t.auto, q);
    } else {
      SamePacks(c, pw, l, t);
      if t.Ack? {
        NotedAck(c, pw, l, q);
      } else if t.BeginPack? {
        NotedBegin(c, pw, l, q);
      } else if t.FinishPack? {
        FinishPlace(c, pw, l);
        ShapePack(c, l, l.nWait);
        NotedFinish(c, pw, l, q);
      } else {
        NotedSame(c, pw, l, t, q);
      }
    }
  }

  lemma GrowsFlushes(l: LogSt, l2: LogSt, q: nat)
    requires Grows(l, l2)
    ensures |l.packs| <= |l2.packs| && (q < |l.packs| ==> l2.packs[q] == l.packs[q])
  {
  }

  lemma NotedStep(c: Setup, s: St, p: PStep)
    requires c.g.ring >= MAX_TOTAL_IO_SIZE && PInv(c, s) && Can(c, s, p) && FuaNoted(s.l) && FlushesNoted(s.l)
    ensures FuaNoted(Do(c, s, p).l) && FlushesNoted(Do(c, s, p).l)
  {
    PInvParts(c, s);
    LogParts(c, s);
    hide PInv, Inv, Shape, Position, IssuedOk, Promised, DInv, GcOk, SyncOk, RingOk, Enabled, Next, DEnabled, DNext;
    hide FuaNoted, FlushNoted, Grows;
    if p.Log? {
      QueueOk(c, s.l);
      FuaNotedStep(c, s.prevWritten, s.l, p.s);
      StepGrows(c, s.prevWritten, s.l, p.s);
      forall q | 0 <= q < |Do(c, s, p).l.packs| ensures FlushNoted(Do(c, s, p).l, q) {
        FlushNotedStep(c, s.prevWritten, s.l, p.s, q);
      }
    }
  }

  lemma StartNoted(base: u64)
    ensures FuaNoted(Start(base).l) && FlushesNoted(Start(base).l)
  {
  }

  lemma {:induction false} RunNoted(c: Setup, base: u64, run: seq<St>, i: nat)
    requires c.g.ring >= MAX_TOTAL_IO_SIZE && Run(c, base, run) && i < |run|
    ensures FuaNoted(run[i].l) && FlushesNoted(run[i].l)
    decreases i
  {
    hide Can, Do, PInv, FuaNoted, FlushesNoted;
    if i == 0 {
      StartNoted(base);
    } else {
      RunNoted(c, base, run, i - 1);
      RunInv(c, base, run, i - 1);
      assert OneStep(c, run[i - 1], run[i]);
      var p :| Follows(c, run[i - 1], run[i], p);
      NotedStep(c, run[i - 1], p);
    }
  }

  // ------------------------------------------------------------ whole runs

  /** Step `a` of the run hands in the request that becomes the first one of pack
      `q` of a later state. */
  ghost predicate HandsIn(run: seq<St>, a: nat, l: LogSt, q: nat)
    requires a + 1 < |run| && q <= |l.packs|
  {
    |AllBios(Packs(l)[..q])| == |Arrived(run[a].l)| < |Arrived(run[a + 1].l)|
  }

  /** The step that hands in a request gives it its stamp. */
  lemma HandedIn(c: Setup, base: u64, run: seq<St>, a: nat)
    requires c.g.ring >= MAX_TOTAL_IO_SIZE && Run(c, base, run) && a + 1 < |run|
    requires |Arrived(run[a].l)| < |Arrived(run[a + 1].l)|
    ensures Arrived(run[a + 1].l)[|Arrived(run[a].l)|].stamp == AckedTo(run[a].l)
  {
    hide Can, Do, PInv, Arrived, AckedTo;
    RunInv(c, base, run, a);
    assert OneStep(c, run[a], run[a + 1]);
    var p :| Follows(c, run[a], run[a + 1], p);
    StepArrived(c, run[a], p);
  }

  /** The requests of pack `q` follow those of the packs before it. */
  lemma {:induction false} BiosAt(ps: seq<Pack>, q: nat)
    requires q < |ps| && ps[q].bios != []
    ensures |AllBios(ps[..q])| < |AllBios(ps)| && AllBios(ps)[|AllBios(ps[..q])|] == ps[q].bios[0]
  {
    var a, b := ps[..q + 1], ps[q + 1..];
    assert ps == a + b && a[..|a| - 1] == ps[..q];
    assert AllBios(a) == AllBios(ps[..q]) + ps[q].bios;
    BiosConcat(a, b);
  }

  lemma ArrivedAt(l: LogSt, q: nat)
    requires q < |l.packs| && l.packs[q].p.bios != []
    ensures var n := |AllBios(Packs(l)[..q])|; n < |Arrived(l)| && Arrived(l)[n] == l.packs[q].p.bios[0]
  {
    hide AllBios;
    BiosAt(Packs(l), q);
  }

  lemma PrefixElem(a: seq<Bio>, b: seq<Bio>, n: nat)
    requires a <= b && n < |a|
    ensures n < |b| && a[n] == b[n]
  {
  }

  /** The stamp of a flush is the end of the last write acknowledged when it was
      handed in. */
  lemma StampIs(c: Setup, base: u64, run: seq<St>, a: nat, i: nat, q: nat)
    requires c.g.ring >= MAX_TOTAL_IO_SIZE && Run(c, base, run) && a < i < |run|
    requires q < |run[i].l.packs| && run[i].l.packs[q].p.bios != [] && HandsIn(run, a, run[i].l, q)
    ensures run[i].l.packs[q].p.bios[0].stamp == AckedTo(run[a].l)
  {
    hide Run, Arrived, AckedTo, AllBios, Packs;
    HandedIn(c, base, run, a);
    ArrivedAt(run[i].l, q);
    RunArrived(c, base, run, a + 1, i);
    PrefixElem(Arrived(run[a + 1].l), Arrived(run[i].l), |Arrived(run[a].l)|);
  }

  lemma WritesStep(c: Setup, s: St, p: PStep)
    requires c.g.ring >= MAX_TOTAL_IO_SIZE && PInv(c, s) && Can(c, s, p)
    ensures s.l.writes <= Do(c, s, p).l.writes
  {
    PInvParts(c, s);
    hide PInv, Inv, Shape, Promised, DInv, GcOk, SyncOk, RingOk, Enabled, Next, DEnabled, DNext;
    if p.Log? {
      StepGrows(c, s.prevWritten, s.l, p.s);
    }
  }

  lemma {:induction false} WritesStay(c: Setup, base: u64, run: seq<St>, i: nat, j: nat)
    requires c.g.ring >= MAX_TOTAL_IO_SIZE && Run(c, base, run) && i <= j < |run|
    ensures run[i].l.writes <= run[j].l.writes
    decreases j
  {
    hide PInv, Can, Do;
    if i < j {
      WritesStay(c, base, run, i, j - 1);
      RunInv(c, base, run, j - 1);
      assert OneStep(c, run[j - 1], run[j]);
      var p :| Follows(c, run[j - 1], run[j], p);
      WritesStep(c, run[j - 1], p);
    }
  }

  lemma AckedEnds(c: Setup, s: St)
    requires PInv(c, s)
    ensures s.l.acked <= |s.l.writes| && forall k | 0 <= k < s.l.acked :: End(s.l.writes[k]) <= AckedTo(s.l)
  {
    PInvParts(c, s);
    InvAcked(c, s.l);
    hide PInv, Inv, Shape, Promised, DInv, GcOk, SyncOk, RingOk, AckedTo;
    forall k | 0 <= k < s.l.acked ensures End(s.l.writes[k]) <= AckedTo(s.l) {
      AckedBelow(c, s.l, k);
    }
  }

  /** All writes acknowledged in state `a` end at or before the stamp of a flush that
      was handed in there. */
  lemma StampCovers(c: Setup, base: u64, run: seq<St>, a: nat, i: nat, q: nat, k: nat)
    requires c.g.ring >= MAX_TOTAL_IO_SIZE && Run(c, base, run) && a < i < |run|
    requires q < |run[i].l.packs| && run[i].l.packs[q].p.bios != [] && HandsIn(run, a, run[i].l, q)
    requires k < run[a].l.acked
    ensures k < |run[i].l.writes| && End(run[i].l.writes[k]) <= run[i].l.packs[q].p.bios[0].stamp
  {
    hide Run, HandsIn, AckedTo, PInv;
    StampIs(c, base, run, a, i, q);
    RunInv(c, base, run, a);
    AckedEnds(c, run[a]);
    WritesStay(c, base, run, a, i);
  }

  /** The first `m` writes hold everything that was promised: every acknowledged FUA
      write, and, for every acknowledged flush whose own pack did not defeat the
      flush of its batch, all writes that had been acknowledged when it was handed in. */
  ghost predicate PromisesKept(run: seq<St>, i: nat, m: nat)
    requires i < |run|
  {
    var l := run[i].l;
    && (forall k | 0 <= k < l.acked && k < |l.writes| && l.writes[k].fua :: k < m)
    && forall a, q | 0 <= a < i && 0 <= q < |l.packs| && FlushAcked(l, q) && HandsIn(run, a, l, q) ::
         Unguarded(l.packs[q], q) || run[a].l.acked <= m
  }

  lemma FuaSurvives(l: LogSt, m: nat, k: nat)
    requires FuaNoted(l) && k < l.acked && l.writes[k].fua
    requires forall j | 0 <= j < |l.writes| && End(l.writes[j]) <= l.fuaPromise :: j < m
    ensures k < m
  {
  }

  lemma FlushKeeps(c: Setup, base: u64, run: seq<St>, a: nat, i: nat, q: nat, m: nat)
    requires c.g.ring >= MAX_TOTAL_IO_SIZE && Run(c, base, run) && a < i < |run|
    requires q < |run[i].l.packs| && FlushAcked(run[i].l, q) && HandsIn(run, a, run[i].l, q) && !Unguarded(run[i].l.packs[q], q)
    requires FlushesNoted(run[i].l) && forall n | 0 <= n < |run[i].l.flushes| :: FlushSurvives(run[i].l, run[i].l.flushes[n], m)
    ensures run[a].l.acked <= m
  {
    var l := run[i].l;
    assert FlushNoted(l, q);
    hide Run, HandsIn, Unguarded;
    var n :| 0 <= n < |l.flushes| && l.flushes[n] == AckedFlush(l.packs[q].p.bios[0].stamp, q);
    assert FlushSurvives(l, l.flushes[n], m);
    if run[a].l.acked > m {
      StampCovers(c, base, run, a, i, q, m);
    }
  }

  lemma RecoveredParts(s: St, d0: Image, d: Image, o: Outcome, m: nat)
    requires Recovered(s, d0, d, o, m)
    ensures m <= |s.l.writes| && forall k | 0 <= k < |s.l.writes| && End(s.l.writes[k]) <= s.l.fuaPromise :: k < m
    ensures forall n | 0 <= n < |s.l.flushes| :: FlushSurvives(s.l, s.l.flushes[n], m)
  {
    hide Apply, FlushSurvives;
  }

  lemma KeptBy(c: Setup, base: u64, run: seq<St>, i: nat, d0: Image, d: Image, o: Outcome, m: nat)
    requires c.g.ring >= MAX_TOTAL_IO_SIZE && Run(c, base, run) && i < |run| && Recovered(run[i], d0, d, o, m)
    ensures PromisesKept(run, i, m)
  {
    hide Run, Recovered, HandsIn, Unguarded, FlushAcked, FuaNoted, FlushesNoted, FlushSurvives;
    RunNoted(c, base, run, i);
    RecoveredParts(run[i], d0, d, o, m);
    var l := run[i].l;
    forall k | 0 <= k < l.acked && k < |l.writes| && l.writes[k].fua ensures k < m {
      FuaSurvives(l, m, k);
    }
    forall a, q | 0 <= a < i && 0 <= q < |l.packs| && FlushAcked(l, q) && HandsIn(run, a, l, q)
      ensures Unguarded(l.packs[q], q) || run[a].l.acked <= m
    {
      if !Unguarded(l.packs[q], q) {
        FlushKeeps(c, base, run, a, i, q, m);
      }
    }
  }

  /** Crash recovery as the block layer sees it. Take any run, a crash in any state of
      it, and replay: the device holds the first `m` writes in order, and among them
      are all acknowledged FUA writes and, for every acknowledged flush whose own
      pack did not defeat the flush of its batch, all writes that had been
      acknowledged when the flush was handed in. */
  lemma EveryRunKeepsPromises(c: Setup, cfg: Config, base: u64, run: seq<St>, i: nat, dev: seq<Block>, d0: Image, d: Image)
    returns (m: nat)
    requires c.g.ring >= MAX_TOTAL_IO_SIZE && Run(c, base, run) && i < |run|
    requires c.g == cfg.g && ValidImage(c.g, dev) && |d0| == c.size
    requires CrashLog(c, cfg, run[i].l, dev) && CrashData(run[i], d0, d)
    requires run[i].nSuper <= |run[i].l.packs| && GoodPacks(c.g, Live(run[i])) && Detects(cfg, dev, Live(run[i]), run[i].l.latest)
    ensures Recovered(run[i], d0, d, RedoLog(cfg, dev, run[i].super), m) && PromisesKept(run, i, m)
  {
    hide ValidImage, CrashLog, CrashData, Live, GoodPacks, Detects, RedoLog, Recovered, Run, PromisesKept;
    m := EveryRunRecovers(c, cfg, base, run, i, dev, d0, d);
    KeptBy(c, base, run, i, d0, d, RedoLog(cfg, dev, run[i].super), m);
  }
}
