/** iocore_freeze on the pipeline itself: the counters it waits for, moved along with
    the runs of the pipeline. */
module FreezeRuns {
  import opened Words
  import opened LogRecord
  import opened Logpack
  import opened WritePack
  import opened Disk
  import opened LogDevice
  import opened RoundTrip
  import opened Recovery
  import opened Submit
  import opened Restart
  import opened LogSide
  import opened Promises
  import opened DataSide
  import opened Pipeline
  import F = Freeze

  /** A pack as the counters see it. */
  function Seen(p: Pack): F.FPack {
    F.FPack(NextLsid(p.header), |p.bios|, p.header.records == [])
  }

  function AllSeen(ps: seq<Pack>): (r: seq<F.FPack>)
    ensures |r| == |ps| && forall i | 0 <= i < |ps| :: r[i] == Seen(ps[i])
  {
    seq(|ps|, i requires 0 <= i < |ps| => Seen(ps[i]))
  }

  /** The counters speak of this state of the pipeline. */
  ghost predicate Tied(s: St, f: F.FSt) {
    TiedLog(s.l, f) && s.nGc == (if f.wrote then f.nTaken else f.nDone) && s.written == f.written
  }

  ghost predicate TiedLog(l: LogSt, f: F.FSt) {
    && f.base == l.base && f.packs == AllSeen(Packs(l)) && f.nWait == l.nWait
    && f.queued + f.inHand == |l.queue|
  }

  /** The packs a Create step makes. */
  function MadePacks(c: Setup, l: LogSt, n: nat): seq<Pack>
    requires n <= |l.queue| && l.latest < U64_SIZE
  {
    PackAll(c.g, c.maxPb, l.latest, l.queue[..n]).packs
  }

  /** The step of the counters that goes with a step of the pipeline. */
  ghost predicate Matches(c: Setup, s: St, p: PStep, f: F.FSt, t: F.FStep) {
    match p
    case Log(Push(_)) => t.Push? && !f.frozenUsr
    case Log(Create(n, _)) =>
      n == f.inHand && n <= |s.l.queue| && s.l.latest < U64_SIZE && t == F.Create(AllSeen(MadePacks(c, s.l, n)))
    case Log(FinishPack) => t.Wait?
    case Gc(n) => t.GcWrite? && !f.wrote && f.nKilled == f.nTaken == f.nDone + n
    case _ => false
  }

  /** Steps of the pipeline that move none of the counters. */
  predicate Unseen(p: PStep) {
    !p.Gc? && !(p.Log? && (p.s.Push? || p.s.Create? || p.s.FinishPack?))
  }

  /** Steps of the counters during which the pipeline stands: a request that goes to
      the frozen queue, the dequeue before packing, the parts of gc before and after
      written_lsid, and iocore_freeze itself. Requests that a melt lets through are
      pushed one by one. */
  predicate CountOnly(f: F.FSt, t: F.FStep) {
    && !t.MeltSys? && !t.Create? && !t.Wait? && !t.GcWrite? && (t.Push? ==> f.frozenUsr)
  }

  datatype JStep = Both(p: PStep, t: F.FStep) | Only(p: PStep) | Count(t: F.FStep)

  ghost predicate JFollows(c: Setup, s: St, f: F.FSt, s2: St, f2: F.FSt, j: JStep) {
    match j
    case Both(p, t) => Can(c, s, p) && Matches(c, s, p, f, t) && F.Can(f, t) && s2 == Do(c, s, p) && f2 == F.Do(f, t)
    case Only(p) => Can(c, s, p) && Unseen(p) && s2 == Do(c, s, p) && f2 == f
    case Count(t) => F.Can(f, t) && CountOnly(f, t) && s2 == s && f2 == F.Do(f, t)
  }

  ghost predicate JOne(c: Setup, s: St, f: F.FSt, s2: St, f2: F.FSt) {
    exists j :: JFollows(c, s, f, s2, f2, j)
  }

  /** A run of the pipeline and of the counters side by side. */
  ghost predicate JRun(c: Setup, base: u64, ss: seq<St>, fs: seq<F.FSt>) {
    && ss != [] && |fs| == |ss| && ss[0] == Start(base) && fs[0] == F.Init(base)
    && forall i | 0 < i < |ss| :: JOne(c, ss[i - 1], fs[i - 1], ss[i], fs[i])
  }

  // ----------------------------------------------------- the two stay together

  lemma {:induction false} SeenBios(ps: seq<Pack>)
    ensures F.Bios(AllSeen(ps)) == |AllBios(ps)|
    decreases |ps|
  {
    if ps != [] {
      var n := |ps| - 1;
      assert AllSeen(ps)[..n] == AllSeen(ps[..n]);
      SeenBios(ps[..n]);
    }
  }

  lemma SeenOk(g: Geometry, ps: seq<Pack>, start: nat, end: nat)
    requires GoodPacks(g, ps) && Chained(ps, start, end)
    ensures F.PacksOk(start, AllSeen(ps))
  {
    hide NextLsid;
    forall i | 0 <= i < |ps| ensures F.PackOk(F.StartOf(start, AllSeen(ps), i), AllSeen(ps)[i]) {
      assert PackOk(g, ps[i]);
      SeenPack(g, ps[i]);
      hide PackOk, NoDiscards;
    }
  }

  lemma SeenPack(g: Geometry, p: Pack)
    requires PackOk(g, p)
    ensures F.PackOk(p.header.lsid, Seen(p))
  {
  }

  lemma SeenLsid(c: Setup, l: LogSt, f: F.FSt, n: nat)
    requires Shape(c, l) && TiedLog(l, f) && n <= |l.packs|
    ensures F.LsidAfter(f, n) == StartOf(l, n)
  {
    StartIs(c, l, n);
    hide Shape, StartOf, NextLsid;
  }

  lemma PushTied(c: Setup, s: St, b: Bio, f: F.FSt)
    requires Tied(s, f) && Can(c, s, Log(Push(b))) && !f.frozenUsr
    ensures F.Can(f, F.Push) && Tied(Do(c, s, Log(Push(b))), F.Do(f, F.Push))
  {
    hide Acceptable;
  }

  lemma WaitTied(c: Setup, s: St, f: F.FSt)
    requires Tied(s, f) && Can(c, s, Log(FinishPack))
    ensures F.Can(f, F.Wait) && Tied(Do(c, s, Log(FinishPack)), F.Do(f, F.Wait))
  {
    hide LoggedOf;
  }

  lemma MadeOk(c: Setup, l: LogSt, n: nat) returns (end: nat)
    requires c.g.ring >= MAX_TOTAL_IO_SIZE && Shape(c, l) && n <= |l.queue| && Room(l.latest, n) && l.latest < U64_SIZE
    ensures GoodPacks(c.g, MadePacks(c, l, n)) && Chained(MadePacks(c, l, n), l.latest, end)
    ensures |AllBios(MadePacks(c, l, n))| == n
  {
    QueueOk(c, l);
    hide Shape, PackAll, GoodPacks, Chained, AllLogged, AllFit, Acceptable, Room, WritesOf, AllBios;
    NewPacksOk(c, l, n);
    end := PackAll(c.g, c.maxPb, l.latest, l.queue[..n]).latest;
  }

  lemma CreateCan(c: Setup, l: LogSt, n: nat, f: F.FSt)
    requires c.g.ring >= MAX_TOTAL_IO_SIZE && Shape(c, l) && TiedLog(l, f)
    requires 0 < n == f.inHand && n <= |l.queue| && Room(l.latest, n) && l.latest < U64_SIZE
    ensures F.Can(f, F.Create(AllSeen(MadePacks(c, l, n))))
  {
    SeenLsid(c, l, f, |l.packs|);
    SeenCount(l, f);
    assert StartOf(l, |l.packs|) == l.latest;
    hide Shape, GoodPacks, Chained, Room, AllBios, TiedLog, MadePacks, StartOf;
    var end := MadeOk(c, l, n);
    SeenBios(MadePacks(c, l, n));
    SeenOk(c.g, MadePacks(c, l, n), l.latest, end);
    hide F.PacksOk, F.Bios, F.LsidAfter, AllSeen;
  }

  lemma SeenCount(l: LogSt, f: F.FSt)
    requires TiedLog(l, f)
    ensures |f.packs| == |l.packs|
  {
  }

  lemma SeenJoin(a: seq<Pack>, b: seq<Pack>)
    ensures AllSeen(a + b) == AllSeen(a) + AllSeen(b)
  {
  }

  lemma MoreSeen(l: LogSt, l2: LogSt, f: F.FSt, ps: seq<Pack>, n: nat)
    requires TiedLog(l, f) && Packs(l2) == Packs(l) + ps && l2.base == l.base && l2.nWait == l.nWait
    requires n == f.inHand && n <= |l.queue| && l2.queue == l.queue[n..] && F.Can(f, F.Create(AllSeen(ps)))
    ensures TiedLog(l2, F.Do(f, F.Create(AllSeen(ps))))
  {
    SeenJoin(Packs(l), ps);
    hide F.Can, AllSeen, Packs;
  }

  lemma CreateDo(c: Setup, s: St, n: nat, auto: bool)
    requires Can(c, s, Log(Create(n, auto)))
    ensures Enabled(c, s.prevWritten, s.l, Create(n, auto))
    ensures Do(c, s, Log(Create(n, auto))) == s.(l := Next(c, s.prevWritten, s.l, Create(n, auto)))
  {
    hide Enabled, Next;
  }

  lemma GcSame(s: St, s2: St, f: F.FSt, ps: seq<F.FPack>)
    requires Tied(s, f) && s2 == s.(l := s2.l) && F.Can(f, F.Create(ps)) && TiedLog(s2.l, F.Do(f, F.Create(ps)))
    ensures Tied(s2, F.Do(f, F.Create(ps)))
  {
    hide TiedLog, F.PacksOk, F.Bios, F.LsidAfter;
  }

  lemma CreateStays(c: Setup, s: St, n: nat, auto: bool, f: F.FSt)
    requires Tied(s, f) && Can(c, s, Log(Create(n, auto)))
    requires n == f.inHand && n <= |s.l.queue| && s.l.latest < U64_SIZE
    requires F.Can(f, F.Create(AllSeen(MadePacks(c, s.l, n))))
    ensures Tied(Do(c, s, Log(Create(n, auto))), F.Do(f, F.Create(AllSeen(MadePacks(c, s.l, n)))))
  {
    CreateDo(c, s, n, auto);
    CreatedPacks(c, s.prevWritten, s.l, n, auto);
    hide Enabled, Next, F.Can, F.Do, PackAll, AllSeen, AllLogged, Packs, TiedLog, Can, Do;
    var s2 := Do(c, s, Log(Create(n, auto)));
    MoreSeen(s.l, s2.l, f, MadePacks(c, s.l, n), n);
    GcSame(s, s2, f, AllSeen(MadePacks(c, s.l, n)));
  }

  lemma CreateTied(c: Setup, s: St, n: nat, auto: bool, f: F.FSt)
    requires c.g.ring >= MAX_TOTAL_IO_SIZE && Shape(c, s.l) && Tied(s, f) && Can(c, s, Log(Create(n, auto)))
    requires n == f.inHand && n <= |s.l.queue| && s.l.latest < U64_SIZE
    ensures F.Can(f, F.Create(AllSeen(MadePacks(c, s.l, n))))
    ensures Tied(Do(c, s, Log(Create(n, auto))), F.Do(f, F.Create(AllSeen(MadePacks(c, s.l, n)))))
  {
    CreateEnabled(c, s.prevWritten, s.l, n, auto);
    hide Shape, Can, Do, F.Can, F.Do, TiedLog, MadePacks, AllSeen, Room;
    CreateCan(c, s.l, n, f);
    CreateStays(c, s, n, auto, f);
  }

  lemma GcTied(c: Setup, s: St, n: nat, f: F.FSt)
    requires Tied(s, f) && Can(c, s, Gc(n))
    requires !f.wrote && f.nKilled == f.nTaken == f.nDone + n
    ensures F.Can(f, F.GcWrite) && Tied(Do(c, s, Gc(n)), F.Do(f, F.GcWrite))
  {
    SeenCount(s.l, f);
    assert s.nGc + n - 1 < |s.l.packs| ==> f.packs[s.nGc + n - 1] == Seen(s.l.packs[s.nGc + n - 1].p);
    hide CountBefore, NextLsid, AllSeen, Packs;
  }

  lemma MatchesMeans(c: Setup, s: St, p: PStep, f: F.FSt, t: F.FStep)
    requires Matches(c, s, p, f, t)
    ensures (p.Log? && (p.s.Push? || p.s.Create? || p.s.FinishPack?)) || p.Gc?
    ensures p.Log? && p.s.Push? ==> t == F.Push && !f.frozenUsr
    ensures p.Log? && p.s.Create? ==>
              p.s.n == f.inHand && p.s.n <= |s.l.queue| && s.l.latest < U64_SIZE && t == F.Create(AllSeen(MadePacks(c, s.l, p.s.n)))
    ensures p.Log? && p.s.FinishPack? ==> t == F.Wait
    ensures p.Gc? ==> t == F.GcWrite && !f.wrote && f.nKilled == f.nTaken == f.nDone + p.n
  {
    hide MadePacks, AllSeen;
  }

  /** The counters can follow the pipeline wherever their place is right. */
  lemma CountersFollow(c: Setup, s: St, p: PStep, f: F.FSt, t: F.FStep)
    requires c.g.ring >= MAX_TOTAL_IO_SIZE && PInv(c, s) && Tied(s, f)
    requires Can(c, s, p) && Matches(c, s, p, f, t)
    ensures F.Can(f, t) && Tied(Do(c, s, p), F.Do(f, t))
  {
    PInvParts(c, s);
    MatchesMeans(c, s, p, f, t);
    hide PInv, Inv, Promised, DInv, GcOk, SyncOk, RingOk, Shape, Can, Do, Tied, Matches;
    hide F.Can, F.Do, MadePacks, AllSeen;
    if p.Gc? {
      GcTied(c, s, p.n, f);
    } else if p.s.Push? {
      PushTied(c, s, p.s.b, f);
    } else if p.s.Create? {
      CreateTied(c, s, p.s.n, p.s.auto, f);
    } else {
      WaitTied(c, s, f);
    }
  }

  lemma UnseenTied(c: Setup, s: St, p: PStep, f: F.FSt)
    requires Tied(s, f) && Can(c, s, p) && Unseen(p)
    ensures Tied(Do(c, s, p), f)
  {
    if p.Log? {
      UnseenLog(c, s.prevWritten, s.l, p.s);
    }
    hide Enabled, Next, DEnabled, DNext, AllSeen, Packs, PendInsert;
  }

  lemma UnseenLog(c: Setup, pw: nat, l: LogSt, t: LStep)
    requires Enabled(c, pw, l, t) && !t.Push? && !t.Create? && !t.FinishPack?
    ensures var l2 := Next(c, pw, l, t); l2.base == l.base && l2.packs == l.packs && l2.queue == l.queue && l2.nWait == l.nWait
  {
    hide BlocksOf, LoggedOf, Acceptable, AllLogged, PackAll, Room;
  }

  lemma CountTied(s: St, f: F.FSt, t: F.FStep)
    requires Tied(s, f) && F.Inv(f) && F.Can(f, t) && CountOnly(f, t)
    ensures Tied(s, F.Do(f, t))
  {
    hide F.PacksOk, F.Alive, AllSeen, Packs;
  }

  lemma JointStep(c: Setup, s: St, f: F.FSt, s2: St, f2: F.FSt, j: JStep)
    requires c.g.ring >= MAX_TOTAL_IO_SIZE && PInv(c, s) && F.Inv(f) && Tied(s, f) && JFollows(c, s, f, s2, f2, j)
    ensures PInv(c, s2) && F.Inv(f2) && Tied(s2, f2)
  {
    hide PInv, F.Inv, Tied, Can, Do, F.Can, F.Do, Matches;
    match j
    case Both(p, t) => CountersFollow(c, s, p, f, t); PStepInv(c, s, p); F.StepInv(f, t);
    case Only(p) => UnseenTied(c, s, p, f); PStepInv(c, s, p);
    case Count(t) => CountTied(s, f, t); F.StepInv(f, t);
  }

  lemma {:induction false} JointInv(c: Setup, base: u64, ss: seq<St>, fs: seq<F.FSt>, i: nat)
    requires c.g.ring >= MAX_TOTAL_IO_SIZE && JRun(c, base, ss, fs) && i < |ss|
    ensures PInv(c, ss[i]) && F.Inv(fs[i]) && Tied(ss[i], fs[i])
    decreases i
  {
    hide PInv, F.Inv, Tied, JFollows;
    if i == 0 {
      StartInv(c, base);
      F.InitOk(base);
      StartTied(base);
    } else {
      JointInv(c, base, ss, fs, i - 1);
      assert JOne(c, ss[i - 1], fs[i - 1], ss[i], fs[i]);
      var j :| JFollows(c, ss[i - 1], fs[i - 1], ss[i], fs[i], j);
      JointStep(c, ss[i - 1], fs[i - 1], ss[i], fs[i], j);
    }
  }

  lemma StartTied(base: u64)
    ensures Tied(Start(base), F.Init(base))
  {
  }

  // ------------------------------------------------------- what freezing means

  /** With written_lsid at the end of the log, all its writes are through. */
  lemma NoneInFlight(c: Setup, s: St)
    requires PInv(c, s) && s.written == s.l.latest
    ensures s.d.gone == |s.l.writes| && s.d.pending == {}
  {
    PInvParts(c, s);
    GcPart(c, s);
    hide PInv, Inv, Promised, DInv, GcOk, SyncOk, RingOk, Shape, StartOf, CountBefore;
    RestEmpty(c, s.l, s.nGc);
    AllGone(EnvOf(s.l), s.d);
  }

  lemma GcPart(c: Setup, s: St)
    requires GcOk(c, s)
    ensures s.nGc <= |s.l.packs| && s.written == StartOf(s.l, s.nGc) && CountBefore(c, s.l, s.nGc) <= s.d.gone
  {
    hide HitBy, CountBefore, StartOf;
  }

  /** Packs that take no lsid log nothing. */
  lemma {:induction false} RestEmpty(c: Setup, l: LogSt, n: nat)
    requires Shape(c, l) && n <= |l.packs| && StartOf(l, n) == l.latest
    ensures CountBefore(c, l, n) == |l.writes|
    decreases |l.packs| - n
  {
    if n == |l.packs| {
      ShapeFacts(c, l);
      assert Packs(l)[..n] == Packs(l);
    } else {
      ShapePack(c, l, n);
      StartMono(c, l, n + 1, |l.packs|);
      NothingLogged(c.g, l.packs[n].p);
      hide Shape, StartOf, NextLsid;
      RestEmpty(c, l, n + 1);
      CountNext(c, l, n);
    }
  }

  lemma NothingLogged(g: Geometry, p: Pack)
    requires PackOk(g, p) && NoDiscards(p) && NextLsid(p.header) == p.header.lsid
    ensures LoggedOf(g, p) == []
  {
    AboutPack(g, p);
  }

  lemma CountNext(c: Setup, l: LogSt, n: nat)
    requires n < |l.packs| && LoggedOf(c.g, l.packs[n].p) == []
    ensures CountBefore(c, l, n + 1) == CountBefore(c, l, n)
  {
    hide LoggedOf;
    assert Packs(l)[..n + 1] == Packs(l)[..n] + [Packs(l)[n]];
    LastLogged(c.g, Packs(l)[..n], Packs(l)[n]);
  }

  lemma AllGone(e: Env, d: DataSt)
    requires DInv(e, d) && |e.ls| <= d.gone
    ensures d.gone == |e.ls| && d.pending == {}
  {
    hide MapOk, Flight, HitsOk, Sending, Once, CoveredBy;
    assert forall k | k in d.pending :: d.gone <= k < e.inserted <= |e.ls|;
  }

  /** When iocore_freeze has returned, written_lsid of the pipeline is its latest
      lsid, no request waits to be packed, every write has been to the data device,
      and none is pending. */
  lemma FreezeIsComplete(c: Setup, base: u64, ss: seq<St>, fs: seq<F.FSt>, i: nat)
    requires c.g.ring >= MAX_TOTAL_IO_SIZE && JRun(c, base, ss, fs) && i < |ss| && fs[i].stage.Returned?
    ensures ss[i].written == ss[i].l.latest && ss[i].l.queue == []
    ensures ss[i].d.gone == |ss[i].l.writes| && ss[i].d.pending == {}
  {
    JointInv(c, base, ss, fs, i);
    hide PInv, Tied, JRun;
    ReturnedMeans(fs[i]);
    PInvParts(c, ss[i]);
    ReturnedWritten(c, ss[i], fs[i]);
    NoneInFlight(c, ss[i]);
  }

  lemma ReturnedMeans(f: F.FSt)
    requires F.Inv(f) && f.stage.Returned?
    ensures f.written == F.LsidAfter(f, |f.packs|) && f.inHand == 0 && f.queued == 0
  {
    F.LatestIs(f, f.nKilled);
  }

  lemma ReturnedWritten(c: Setup, s: St, f: F.FSt)
    requires Shape(c, s.l) && Tied(s, f) && f.written == F.LsidAfter(f, |f.packs|) && f.inHand == 0 && f.queued == 0
    ensures s.written == s.l.latest && s.l.queue == []
  {
    SeenCount(s.l, f);
    SeenLsid(c, s.l, f, |s.l.packs|);
    hide Shape, AllSeen, Packs, F.LsidAfter;
  }

  // -------------------------------------------- no run of the pipeline is left out

  /** Some joint run ends like this. */
  ghost predicate JReach(c: Setup, base: u64, s: St, f: F.FSt) {
    exists ss, fs :: JRun(c, base, ss, fs) && ss[|ss| - 1] == s && fs[|ss| - 1] == f
  }

  lemma JStart(c: Setup, base: u64)
    ensures JReach(c, base, Start(base), F.Init(base))
  {
    assert JRun(c, base, [Start(base)], [F.Init(base)]);
  }

  lemma JExtend(c: Setup, base: u64, s: St, f: F.FSt, s2: St, f2: F.FSt, j: JStep)
    requires JReach(c, base, s, f) && JFollows(c, s, f, s2, f2, j)
    ensures JReach(c, base, s2, f2)
  {
    hide JFollows;
    var ss, fs :| JRun(c, base, ss, fs) && ss[|ss| - 1] == s && fs[|ss| - 1] == f;
    var ss2, fs2 := ss + [s2], fs + [f2];
    assert JOne(c, s, f, s2, f2);
    forall i | 0 < i < |ss2| ensures JOne(c, ss2[i - 1], fs2[i - 1], ss2[i], fs2[i]) {
      if i < |ss| {
        assert JOne(c, ss[i - 1], fs[i - 1], ss[i], fs[i]);
      }
    }
    assert JRun(c, base, ss2, fs2);
  }

  lemma JCount(c: Setup, base: u64, s: St, f: F.FSt, t: F.FStep)
    requires JReach(c, base, s, f) && F.Can(f, t) && CountOnly(f, t)
    ensures JReach(c, base, s, F.Do(f, t))
  {
    hide JReach, F.Can, F.Do;
    JExtend(c, base, s, f, s, F.Do(f, t), Count(t));
  }

  lemma JBoth(c: Setup, base: u64, s: St, f: F.FSt, p: PStep, t: F.FStep)
    requires JReach(c, base, s, f) && Can(c, s, p) && Matches(c, s, p, f, t) && F.Can(f, t)
    ensures JReach(c, base, Do(c, s, p), F.Do(f, t))
  {
    hide JReach, F.Can, F.Do, Can, Do, Matches;
    JExtend(c, base, s, f, Do(c, s, p), F.Do(f, t), Both(p, t));
  }

  /** Nothing dequeued, no gc under way, no freeze. */
  ghost predicate AtRest(f: F.FSt) {
    && f.inHand == 0 && f.nDone == f.nKilled == f.nTaken && !f.wrote
    && f.stage.NotFreezing? && !f.frozenUsr
  }

  /** The pipeline and the counters at rest, in step. */
  ghost predicate Together(c: Setup, base: u64, s: St, f: F.FSt) {
    JReach(c, base, s, f) && AtRest(f) && Tied(s, f) && PInv(c, s) && F.Inv(f)
  }

  lemma RestStays(f: F.FSt, t: F.FStep)
    requires AtRest(f) && F.Can(f, t) && (t.Push? || t.Wait?)
    ensures AtRest(F.Do(f, t))
  {
  }

  lemma PlainMatches(c: Setup, s: St, p: PStep, f: F.FSt)
    requires AtRest(f) && p.Log?
    ensures p.s.Push? ==> Matches(c, s, p, f, F.Push)
    ensures p.s.FinishPack? ==> Matches(c, s, p, f, F.Wait)
  {
  }

  lemma PushTogether(c: Setup, base: u64, s: St, f: F.FSt, b: Bio) returns (f2: F.FSt)
    requires Together(c, base, s, f) && Can(c, s, Log(Push(b)))
    ensures JReach(c, base, Do(c, s, Log(Push(b))), f2) && AtRest(f2)
  {
    PushCan(f);
    PlainMatches(c, s, Log(Push(b)), f);
    hide JReach, Can, Do, Tied, PInv, F.Inv, F.Can, F.Do, Matches, AtRest;
    f2 := F.Do(f, F.Push);
    RestStays(f, F.Push);
    JBoth(c, base, s, f, Log(Push(b)), F.Push);
  }

  lemma WaitTogether(c: Setup, base: u64, s: St, f: F.FSt) returns (f2: F.FSt)
    requires Together(c, base, s, f) && Can(c, s, Log(FinishPack))
    ensures JReach(c, base, Do(c, s, Log(FinishPack)), f2) && AtRest(f2)
  {
    hide JReach, Can, Do, Tied, PInv, F.Inv, F.Can, F.Do, Matches, AtRest;
    WaitTied(c, s, f);
    PlainMatches(c, s, Log(FinishPack), f);
    f2 := F.Do(f, F.Wait);
    RestStays(f, F.Wait);
    JBoth(c, base, s, f, Log(FinishPack), F.Wait);
  }

  lemma PushCan(f: F.FSt)
    ensures F.Can(f, F.Push)
  {
  }

  /** The dequeue that comes before packing. */
  lemma DequeueReady(s: St, f: F.FSt, n: nat)
    requires Tied(s, f) && AtRest(f) && 0 < n <= |s.l.queue|
    ensures F.Can(f, F.Dequeue(n)) && CountOnly(f, F.Dequeue(n))
    ensures var f1 := F.Do(f, F.Dequeue(n)); Tied(s, f1) && f1.inHand == n && Handed(f1)
  {
    hide AllSeen, Packs;
  }

  /** At rest but for the requests in hand. */
  ghost predicate Handed(f: F.FSt) {
    f.nDone == f.nKilled == f.nTaken && !f.wrote && f.stage.NotFreezing? && !f.frozenUsr
  }

  lemma CreateRests(f: F.FSt, ps: seq<F.FPack>)
    requires Handed(f) && F.Can(f, F.Create(ps))
    ensures AtRest(F.Do(f, F.Create(ps)))
  {
    hide F.Bios, F.PacksOk, F.LsidAfter;
  }

  lemma CreateMatches(c: Setup, s: St, n: nat, auto: bool, f: F.FSt)
    requires n == f.inHand && n <= |s.l.queue| && s.l.latest < U64_SIZE
    ensures Matches(c, s, Log(Create(n, auto)), f, F.Create(AllSeen(MadePacks(c, s.l, n))))
  {
    hide AllSeen, MadePacks;
  }

  lemma CreateTogether(c: Setup, base: u64, s: St, f: F.FSt, n: nat, auto: bool) returns (f2: F.FSt)
    requires c.g.ring >= MAX_TOTAL_IO_SIZE && Together(c, base, s, f) && Can(c, s, Log(Create(n, auto)))
    ensures JReach(c, base, Do(c, s, Log(Create(n, auto))), f2) && AtRest(f2)
  {
    PInvParts(c, s);
    LatestFits(c, s.l);
    CreateEnabled(c, s.prevWritten, s.l, n, auto);
    hide JReach, Can, Do, Tied, PInv, F.Inv, F.Can, F.Do, Matches, AtRest, Handed, MadePacks, AllSeen, CountOnly;
    hide Inv, Promised, DInv, GcOk, SyncOk, RingOk, Shape, Room;
    DequeueReady(s, f, n);
    JCount(c, base, s, f, F.Dequeue(n));
    CreateHanded(c, base, s, F.Do(f, F.Dequeue(n)), n, auto);
    f2 := F.Do(F.Do(f, F.Dequeue(n)), F.Create(AllSeen(MadePacks(c, s.l, n))));
  }

  lemma CreateHanded(c: Setup, base: u64, s: St, f: F.FSt, n: nat, auto: bool)
    requires c.g.ring >= MAX_TOTAL_IO_SIZE && Shape(c, s.l) && JReach(c, base, s, f) && Tied(s, f) && Handed(f)
    requires Can(c, s, Log(Create(n, auto))) && n == f.inHand && n <= |s.l.queue| && s.l.latest < U64_SIZE
    ensures var t := F.Create(AllSeen(MadePacks(c, s.l, n)));
      F.Can(f, t) && JReach(c, base, Do(c, s, Log(Create(n, auto))), F.Do(f, t)) && AtRest(F.Do(f, t))
  {
    hide JReach, Can, Do, Tied, F.Can, F.Do, Matches, AtRest, Handed, MadePacks, AllSeen, Shape;
    var t := F.Create(AllSeen(MadePacks(c, s.l, n)));
    CreateTied(c, s, n, auto, f);
    CreateMatches(c, s, n, auto, f);
    CreateRests(f, AllSeen(MadePacks(c, s.l, n)));
    JBoth(c, base, s, f, Log(Create(n, auto)), t);
  }

  lemma LatestFits(c: Setup, l: LogSt)
    requires Shape(c, l)
    ensures l.latest < U64_SIZE
  {
    hide GoodPacks, Chained, AllLogged, AllFit;
  }

  /** The gc worker has taken `n` packs. */
  ghost predicate Taking(f: F.FSt, n: nat) {
    && f.inHand == 0 && f.nTaken == f.nDone + n && f.nKilled <= f.nTaken <= |f.packs|
    && !f.wrote && f.stage.NotFreezing? && !f.frozenUsr
  }

  lemma AddReady(s: St, f: F.FSt)
    requires Tied(s, f) && AtRest(f) && f.nAdded < f.nWait
    ensures F.Can(f, F.AddPending) && CountOnly(f, F.AddPending)
    ensures var f1 := F.Do(f, F.AddPending); Tied(s, f1) && AtRest(f1) && f1.nAdded == f1.nWait
  {
    hide AllSeen, Packs;
  }

  lemma TakeReady(s: St, f: F.FSt, n: nat)
    requires Tied(s, f) && AtRest(f) && 0 < n && f.nDone + n <= f.nAdded && f.nDone + n <= |f.packs|
    ensures F.Can(f, F.GcTake(n)) && CountOnly(f, F.GcTake(n))
    ensures var f1 := F.Do(f, F.GcTake(n)); Tied(s, f1) && Taking(f1, n)
  {
    hide AllSeen, Packs;
  }

  lemma KillReady(s: St, f: F.FSt, n: nat)
    requires Tied(s, f) && Taking(f, n) && f.nKilled < f.nTaken
    ensures F.Can(f, F.GcKill) && CountOnly(f, F.GcKill)
    ensures var f1 := F.Do(f, F.GcKill); Tied(s, f1) && Taking(f1, n) && f1.nTaken == f.nTaken && f1.nKilled == f.nKilled + 1
  {
    hide AllSeen, Packs;
  }

  lemma WriteRests(f: F.FSt, n: nat)
    requires Taking(f, n) && f.nKilled == f.nTaken && F.Can(f, F.GcWrite)
    ensures var f1 := F.Do(f, F.GcWrite);
      F.Can(f1, F.GcDone) && CountOnly(f1, F.GcDone) && AtRest(F.Do(f1, F.GcDone))
  {
    hide F.LsidAfter;
  }

  lemma GcMatches(c: Setup, s: St, n: nat, f: F.FSt)
    requires Taking(f, n) && f.nKilled == f.nTaken
    ensures Matches(c, s, Gc(n), f, F.GcWrite)
  {
  }

  lemma {:induction false} KillAll(c: Setup, base: u64, s: St, f: F.FSt, n: nat) returns (f2: F.FSt)
    requires JReach(c, base, s, f) && Tied(s, f) && Taking(f, n)
    ensures JReach(c, base, s, f2) && Tied(s, f2) && Taking(f2, n) && f2.nKilled == f2.nTaken
    decreases f.nTaken - f.nKilled
  {
    hide JReach, Tied, F.Can, F.Do, CountOnly;
    f2 := f;
    if f.nKilled < f.nTaken {
      KillReady(s, f, n);
      JCount(c, base, s, f, F.GcKill);
      f2 := KillAll(c, base, s, F.Do(f, F.GcKill), n);
    }
  }

  lemma GcTaken(c: Setup, base: u64, s: St, f: F.FSt, n: nat) returns (f2: F.FSt)
    requires JReach(c, base, s, f) && Tied(s, f) && AtRest(f) && f.nAdded <= f.nWait
    requires 0 < n && f.nDone + n <= f.nWait <= |f.packs|
    ensures JReach(c, base, s, f2) && Tied(s, f2) && Taking(f2, n)
  {
    hide JReach, Tied, F.Can, CountOnly;
    var f1 := f;
    if f.nAdded < f.nWait {
      AddReady(s, f);
      JCount(c, base, s, f, F.AddPending);
      f1 := F.Do(f, F.AddPending);
    }
    TakeReady(s, f1, n);
    JCount(c, base, s, f1, F.GcTake(n));
    f2 := F.Do(f1, F.GcTake(n));
  }

  lemma GcFits(c: Setup, s: St, f: F.FSt, n: nat)
    requires Tied(s, f) && AtRest(f) && F.Inv(f) && Can(c, s, Gc(n))
    ensures f.nAdded <= f.nWait && 0 < n && f.nDone + n <= f.nWait <= |f.packs|
  {
    hide F.PacksOk, F.Alive, CountBefore, AllSeen, Packs;
  }

  lemma GcTogether(c: Setup, base: u64, s: St, f: F.FSt, n: nat) returns (f2: F.FSt)
    requires Together(c, base, s, f) && Can(c, s, Gc(n))
    ensures JReach(c, base, Do(c, s, Gc(n)), f2) && AtRest(f2)
  {
    GcFits(c, s, f, n);
    hide JReach, Can, Do, Tied, PInv, F.Inv, F.Can, F.Do, Matches, AtRest, CountOnly;
    var f1 := GcTaken(c, base, s, f, n);
    f1 := KillAll(c, base, s, f1, n);
    GcMatches(c, s, n, f1);
    GcTied(c, s, n, f1);
    WriteRests(f1, n);
    hide Taking;
    JBoth(c, base, s, f1, Gc(n), F.GcWrite);
    JCount(c, base, Do(c, s, Gc(n)), F.Do(f1, F.GcWrite), F.GcDone);
    f2 := F.Do(F.Do(f1, F.GcWrite), F.GcDone);
  }

  lemma OnlyTogether(c: Setup, base: u64, s: St, f: F.FSt, p: PStep)
    requires Together(c, base, s, f) && Can(c, s, p) && Unseen(p)
    ensures JReach(c, base, Do(c, s, p), f)
  {
    hide JReach, Can, Do, Tied, PInv, F.Inv, AtRest, Unseen;
    JExtend(c, base, s, f, Do(c, s, p), f, Only(p));
  }

  lemma ReachTogether(c: Setup, base: u64, s: St, f: F.FSt)
    requires c.g.ring >= MAX_TOTAL_IO_SIZE && JReach(c, base, s, f) && AtRest(f)
    ensures Together(c, base, s, f)
  {
    hide PInv, F.Inv, Tied, AtRest;
    var ss, fs :| JRun(c, base, ss, fs) && ss[|ss| - 1] == s && fs[|ss| - 1] == f;
    assert ss != [];
    hide JRun;
    JointInv(c, base, ss, fs, |ss| - 1);
  }

  /** Whatever the pipeline does next, the counters can be moved along. */
  lemma NextTogether(c: Setup, base: u64, s: St, f: F.FSt, p: PStep) returns (f2: F.FSt)
    requires c.g.ring >= MAX_TOTAL_IO_SIZE && Together(c, base, s, f) && Can(c, s, p)
    ensures Together(c, base, Do(c, s, p), f2)
  {
    hide Together, Can, Do, JReach;
    f2 := f;
    if p.Gc? {
      f2 := GcTogether(c, base, s, f, p.n);
    } else if p.Log? && p.s.Push? {
      f2 := PushTogether(c, base, s, f, p.s.b);
    } else if p.Log? && p.s.Create? {
      f2 := CreateTogether(c, base, s, f, p.s.n, p.s.auto);
    } else if p.Log? && p.s.FinishPack? {
      f2 := WaitTogether(c, base, s, f);
    } else {
      OnlyTogether(c, base, s, f, p);
      RestOf(c, base, s, f);
    }
    ReachTogether(c, base, Do(c, s, p), f2);
  }

  lemma RestOf(c: Setup, base: u64, s: St, f: F.FSt)
    requires Together(c, base, s, f)
    ensures AtRest(f)
  {
    hide JReach, Tied, PInv, F.Inv, AtRest;
  }

  /** Every run of the pipeline has its counters: there is a joint run that comes to
      the same state, with the counters at rest, where iocore_freeze may begin. */
  lemma {:induction false} EveryRunIsCounted(c: Setup, base: u64, run: seq<St>, i: nat) returns (f: F.FSt)
    requires c.g.ring >= MAX_TOTAL_IO_SIZE && Run(c, base, run) && i < |run|
    ensures JReach(c, base, run[i], f) && AtRest(f)
    ensures F.Can(f, F.FreezeUsr) && CountOnly(f, F.FreezeUsr)
    decreases i
  {
    hide Can, Do, JReach, Tied, PInv, F.Inv;
    if i == 0 {
      f := F.Init(base);
      JStart(c, base);
    } else {
      var f1 := EveryRunIsCounted(c, base, run, i - 1);
      ReachTogether(c, base, run[i - 1], f1);
      assert OneStep(c, run[i - 1], run[i]);
      var p :| Follows(c, run[i - 1], run[i], p);
      f := NextTogether(c, base, run[i - 1], f1, p);
    }
  }
}
