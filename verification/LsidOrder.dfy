/** The order of the lsid counters that module/kern.h states in
    lsid_set_is_valid, and exactly when one link of it breaks. */
module LsidOrder {
  import opened Words
  import opened LogRecord
  import opened Logpack
  import opened WritePack
  import opened Disk
  import opened LogDevice
  import opened RoundTrip
  import opened Recovery
  import opened Submit
  import opened LogSide
  import opened Promises
  import opened DataSide
  import opened Pipeline
  import opened Crash

  /** End of the last request of a pack that has one. */
  function LastEnd(g: Geometry, p: Pack): nat {
    var ls := LoggedOf(g, p);
    if ls == [] then p.header.lsid else End(ls[|ls| - 1])
  }

  /** The pack ends in padding right behind a last request that is FUA. */
  predicate FuaTail(g: Geometry, p: Pack) {
    var ls := LoggedOf(g, p);
    ls != [] && ls[|ls| - 1].fua && LastEnd(g, p) < NextLsid(p.header)
  }

  /** `v` lies inside the trailing padding of the pack. */
  predicate InTail(g: Geometry, p: Pack, v: nat) {
    LoggedOf(g, p) != [] && LastEnd(g, p) <= v < NextLsid(p.header)
  }

  /** A counter value: a pack boundary or the end of a request, and inside trailing
      padding only right behind a FUA request. */
  ghost predicate Clean(c: Setup, l: LogSt, v: nat) {
    v <= l.latest && forall i | 0 <= i < |l.packs| && InTail(c.g, l.packs[i].p, v) ::
      FuaTail(c.g, l.packs[i].p) && v == LastEnd(c.g, l.packs[i].p)
  }

  ghost predicate CleanAll(c: Setup, l: LogSt) {
    && Clean(c, l, l.completed) && Clean(c, l, l.permanent)
    && (forall k | 0 <= k < |l.toks| :: Clean(c, l, l.toks[k].target))
    && (l.phase.Flushing? ==> Clean(c, l, l.phase.tok.target))
    && (forall i | 0 <= i < |l.packs| && l.packs[i].shouldFlush :: Clean(c, l, l.packs[i].tok.target))
  }

  // ----------------------------------------------------------- where tails are

  lemma TailInside(g: Geometry, p: Pack)
    requires PackOk(g, p) && NoDiscards(p)
    ensures LoggedOf(g, p) != [] ==> p.header.lsid < LastEnd(g, p) <= NextLsid(p.header)
    ensures forall j | 0 <= j < |LoggedOf(g, p)| - 1 :: End(LoggedOf(g, p)[j]) < LastEnd(g, p)
  {
    hide PackOk, NoDiscards, LoggedOf, NextLsid;
    var ls := LoggedOf(g, p);
    if ls != [] {
      var n := |ls| - 1;
      BetweenRequests(g, p, n);
      SomeBlocks(g, p, n);
      forall j | 0 <= j < n ensures End(ls[j]) < LastEnd(g, p) {
        LoggedOrder(g, p, j, n);
      }
    }
  }

  lemma SomeBlocks(g: Geometry, p: Pack, j: nat)
    requires PackOk(g, p) && NoDiscards(p) && j < |LoggedOf(g, p)|
    ensures LoggedOf(g, p)[j].pb > 0
  {
    var i := PlaceOf(g, p, j);
    CapacityPbTight(g.nLb, p.header.records[i].ioSize);
  }

  /** Where a pack starts is a clean value. */
  lemma BoundaryClean(c: Setup, l: LogSt, n: nat)
    requires Shape(c, l) && n <= |l.packs|
    ensures Clean(c, l, StartOf(l, n))
  {
    hide Shape, InTail, FuaTail;
    StartMono(c, l, n, |l.packs|);
    forall i | 0 <= i < |l.packs| ensures !InTail(c.g, l.packs[i].p, StartOf(l, n)) {
      NotInTail(c, l, i, n);
    }
  }

  lemma NotInTail(c: Setup, l: LogSt, i: nat, n: nat)
    requires Shape(c, l) && n <= |l.packs| && i < |l.packs|
    ensures !InTail(c.g, l.packs[i].p, StartOf(l, n))
  {
    hide Shape, PackOk, NoDiscards, LoggedOf, NextLsid, LastEnd;
    ShapePack(c, l, i);
    TailInside(c.g, l.packs[i].p);
    if i < n {
      StartMono(c, l, i + 1, n);
    } else {
      StartMono(c, l, n, i);
    }
  }

  /** So is the end of a FUA request. */
  lemma FuaEndClean(c: Setup, l: LogSt, n: nat, j: nat)
    requires Shape(c, l) && n < |l.packs| && j < |LoggedOf(c.g, l.packs[n].p)| && LoggedOf(c.g, l.packs[n].p)[j].fua
    ensures Clean(c, l, End(LoggedOf(c.g, l.packs[n].p)[j]))
  {
    hide Shape, PackOk, NoDiscards, LoggedOf, NextLsid;
    var v := End(LoggedOf(c.g, l.packs[n].p)[j]);
    ShapePack(c, l, n);
    BetweenRequests(c.g, l.packs[n].p, j);
    TailInside(c.g, l.packs[n].p);
    forall i | 0 <= i < |l.packs| && InTail(c.g, l.packs[i].p, v)
      ensures FuaTail(c.g, l.packs[i].p) && v == LastEnd(c.g, l.packs[i].p)
    {
      if i != n {
        EndNotInTail(c, l, n, i, v);
      }
    }
  }

  lemma EndNotInTail(c: Setup, l: LogSt, n: nat, i: nat, v: nat)
    requires Shape(c, l) && n < |l.packs| && i < |l.packs| && i != n
    requires StartOf(l, n) <= v <= StartOf(l, n + 1)
    ensures !InTail(c.g, l.packs[i].p, v)
  {
    hide Shape, PackOk, NoDiscards, LoggedOf, NextLsid, LastEnd;
    ShapePack(c, l, i);
    TailInside(c.g, l.packs[i].p);
    if i < n {
      StartMono(c, l, i + 1, n);
    } else {
      StartMono(c, l, n + 1, i);
    }
  }

  /** New packs lie above every counter. */
  lemma CleanStays(c: Setup, l: LogSt, l2: LogSt, v: nat)
    requires Shape(c, l) && Shape(c, l2) && Grows(l, l2) && Clean(c, l, v)
    ensures Clean(c, l2, v)
  {
    hide Shape, InTail, FuaTail;
    StartStays(c, l, l2, |l.packs|);
    forall i | 0 <= i < |l2.packs| && InTail(c.g, l2.packs[i].p, v)
      ensures FuaTail(c.g, l2.packs[i].p) && v == LastEnd(c.g, l2.packs[i].p)
    {
      if i < |l.packs| {
        assert l2.packs[i] == l.packs[i];
      } else {
        AboveAll(c, l2, |l.packs|, i, v);
      }
    }
  }

  lemma AboveAll(c: Setup, l: LogSt, n: nat, i: nat, v: nat)
    requires Shape(c, l) && n <= i < |l.packs| && v <= StartOf(l, n)
    ensures !InTail(c.g, l.packs[i].p, v)
  {
    hide Shape, PackOk, NoDiscards, LoggedOf, NextLsid, LastEnd;
    ShapePack(c, l, i);
    TailInside(c.g, l.packs[i].p);
    StartMono(c, l, n, i);
  }

  // ------------------------------------------------------------ every step

  /** The counters after a step are counters and targets from before it, pack
      boundaries, or the end of the FUA request under way. */
  ghost predicate FromOld(c: Setup, l: LogSt, l2: LogSt) {
    && (l2.completed == l.completed || MovedTo(c, l, l2.completed))
    && (l2.permanent == l.permanent || Target(l, l2.permanent))
    && (forall k | 0 <= k < |l2.toks| :: l2.toks[k].target == l.completed || Target(l, l2.toks[k].target))
    && (l2.phase.Flushing? ==> l2.phase.tok.target == l.completed || Target(l, l2.phase.tok.target))
    && (forall i | 0 <= i < |l2.packs| && l2.packs[i].shouldFlush ::
          l2.packs[i].tok.target == l.completed || Target(l, l2.packs[i].tok.target))
  }

  ghost predicate MovedTo(c: Setup, l: LogSt, v: nat) {
    && l.nWait < |l.packs|
    && (v == NextLsid(l.packs[l.nWait].p.header)
        || exists j :: 0 <= j < |CurLogged(c, l)| && CurLogged(c, l)[j].fua && v == End(CurLogged(c, l)[j]))
  }

  ghost predicate Target(l: LogSt, v: nat) {
    || (exists k :: 0 <= k < |l.toks| && l.toks[k].target == v)
    || (l.phase.Flushing? && l.phase.tok.target == v)
    || (exists i :: 0 <= i < |l.packs| && l.packs[i].shouldFlush && l.packs[i].tok.target == v)
  }

  lemma TargetClean(c: Setup, l: LogSt, v: nat)
    requires CleanAll(c, l) && (v == l.completed || v == l.permanent || Target(l, v))
    ensures Clean(c, l, v)
  {
    hide Clean;
  }

  lemma MovedClean(c: Setup, l: LogSt, v: nat)
    requires Shape(c, l) && MovedTo(c, l, v)
    ensures Clean(c, l, v)
  {
    hide Shape, Clean, NextLsid, LoggedOf, PackOk, NoDiscards;
    ShapePack(c, l, l.nWait);
    BoundaryClean(c, l, l.nWait + 1);
    if v != NextLsid(l.packs[l.nWait].p.header) {
      var j :| 0 <= j < |CurLogged(c, l)| && CurLogged(c, l)[j].fua && v == End(CurLogged(c, l)[j]);
      FuaEndClean(c, l, l.nWait, j);
    }
  }

  lemma FromOldClean(c: Setup, l: LogSt, l2: LogSt)
    requires Shape(c, l) && Shape(c, l2) && Grows(l, l2) && CleanAll(c, l) && FromOld(c, l, l2)
    ensures CleanAll(c, l2)
  {
    hide Shape, Grows, Clean, MovedTo, Target;
    if l2.completed != l.completed {
      MovedClean(c, l, l2.completed);
    }
    CleanStays(c, l, l2, l2.completed);
    TargetClean(c, l, l2.permanent);
    CleanStays(c, l, l2, l2.permanent);
    forall k | 0 <= k < |l2.toks| ensures Clean(c, l2, l2.toks[k].target) {
      TargetClean(c, l, l2.toks[k].target);
      CleanStays(c, l, l2, l2.toks[k].target);
    }
    if l2.phase.Flushing? {
      TargetClean(c, l, l2.phase.tok.target);
      CleanStays(c, l, l2, l2.phase.tok.target);
    }
    forall i | 0 <= i < |l2.packs| && l2.packs[i].shouldFlush ensures Clean(c, l2, l2.packs[i].tok.target) {
      TargetClean(c, l, l2.packs[i].tok.target);
      CleanStays(c, l, l2, l2.packs[i].tok.target);
    }
  }

  lemma QuietFromOld(c: Setup, pw: nat, l: LogSt, s: LStep)
    requires Enabled(c, pw, l, s)
    requires s.Push? || s.SubmitNext? || s.HeaderDone? || s.BlocksDone? || s.Destage? || s.InsertPending? || s.Ack?
    ensures FromOld(c, l, Next(c, pw, l, s))
  {
    hide LoggedOf, BlocksOf, AckedTo, Acceptable, MovedTo, Max;
    TargetsOf(l);
  }

  lemma TargetsOf(l: LogSt)
    ensures forall k | 0 <= k < |l.toks| :: Target(l, l.toks[k].target)
    ensures l.phase.Flushing? ==> Target(l, l.phase.tok.target)
    ensures forall i | 0 <= i < |l.packs| && l.packs[i].shouldFlush :: Target(l, l.packs[i].tok.target)
  {
  }

  lemma BeginFlushFromOld(c: Setup, pw: nat, l: LogSt)
    ensures Enabled(c, pw, l, BeginFlush) && FromOld(c, l, Next(c, pw, l, BeginFlush))
  {
    BeginFlushNext(c, pw, l);
    hide Next, Enabled, MovedTo, Target, Max;
    TargetsOf(l);
  }

  lemma EndFlushFromOld(c: Setup, pw: nat, l: LogSt, k: nat)
    requires Enabled(c, pw, l, EndFlush(k))
    ensures FromOld(c, l, Next(c, pw, l, EndFlush(k)))
  {
    hide MovedTo, Target;
    TargetsOf(l);
  }

  lemma BeginFromOld(c: Setup, pw: nat, l: LogSt)
    requires Enabled(c, pw, l, BeginPack)
    ensures FromOld(c, l, Next(c, pw, l, BeginPack))
  {
    hide MovedTo, Target;
    TargetsOf(l);
  }

  lemma MarkFromOld(c: Setup, pw: nat, l: LogSt)
    requires Enabled(c, pw, l, MarkFua)
    ensures FromOld(c, l, Next(c, pw, l, MarkFua))
  {
    hide Target, LoggedOf;
    TargetsOf(l);
  }

  lemma FuaFromOld(c: Setup, pw: nat, l: LogSt, s: LStep)
    requires Enabled(c, pw, l, s) && (s.StartFua? || s.EndFua?)
    ensures FromOld(c, l, Next(c, pw, l, s))
  {
    hide MovedTo, Target, LoggedOf;
    TargetsOf(l);
  }

  lemma FinishFromOld(c: Setup, pw: nat, l: LogSt)
    requires Enabled(c, pw, l, FinishPack)
    ensures FromOld(c, l, Next(c, pw, l, FinishPack))
  {
    hide Target, LoggedOf, NextLsid;
    TargetsOf(l);
  }

  lemma CreateFromOld(c: Setup, pw: nat, l: LogSt, n: nat, auto: bool)
    requires Enabled(c, pw, l, Create(n, auto)) && l.latest < U64_SIZE
    ensures FromOld(c, l, Next(c, pw, l, Create(n, auto)))
  {
    CreateEnabled(c, pw, l, n, auto);
    CreateQueue(c, pw, l, n, auto);
    CreatedPacks(c, pw, l, n, auto);
    TargetsOf(l);
    hide Next, Enabled, MovedTo, Target, PackAll, AllLogged, Packs;
    NewTargets(l, Next(c, pw, l, Create(n, auto)), PackAll(c.g, c.maxPb, l.latest, l.queue[..n]));
  }

  lemma NewTargets(l: LogSt, l2: LogSt, st: Packing)
    requires exists auto :: l2.packs == l.packs + NewPacks(l, st.packs, auto)
    ensures forall i | |l.packs| <= i < |l2.packs| :: l2.packs[i].tok.target == l.completed
  {
    var auto :| l2.packs == l.packs + NewPacks(l, st.packs, auto);
    forall i | |l.packs| <= i < |l2.packs| ensures l2.packs[i].tok.target == l.completed {
      assert l2.packs[i] == NewPacks(l, st.packs, auto)[i - |l.packs|];
    }
  }

  lemma StepFromOld(c: Setup, pw: nat, l: LogSt, s: LStep)
    requires Enabled(c, pw, l, s) && l.latest < U64_SIZE
    ensures FromOld(c, l, Next(c, pw, l, s))
  {
    hide Next, Enabled, FromOld;
    match s
    case Push(_) => QuietFromOld(c, pw, l, s);
    case Create(n, auto) => CreateFromOld(c, pw, l, n, auto);
    case SubmitNext => QuietFromOld(c, pw, l, s);
    case HeaderDone(_) => QuietFromOld(c, pw, l, s);
    case BlocksDone(_) => QuietFromOld(c, pw, l, s);
    case Destage(_) => QuietFromOld(c, pw, l, s);
    case BeginFlush => BeginFlushFromOld(c, pw, l);
    case EndFlush(k) => EndFlushFromOld(c, pw, l, k);
    case BeginPack => BeginFromOld(c, pw, l);
    case InsertPending => QuietFromOld(c, pw, l, s);
    case MarkFua => MarkFromOld(c, pw, l);
    case StartFua => FuaFromOld(c, pw, l, s);
    case EndFua => FuaFromOld(c, pw, l, s);
    case Ack => QuietFromOld(c, pw, l, s);
    case FinishPack => FinishFromOld(c, pw, l);
  }

  lemma ShapeLatest(c: Setup, l: LogSt)
    requires Shape(c, l)
    ensures l.latest < U64_SIZE
  {
    hide GoodPacks, Chained, AllFit, AllLogged;
  }

  lemma CleanStep(c: Setup, pw: nat, l: LogSt, s: LStep)
    requires c.g.ring >= MAX_TOTAL_IO_SIZE && Inv(c, l) && CleanAll(c, l) && Enabled(c, pw, l, s)
    ensures CleanAll(c, Next(c, pw, l, s))
  {
    hide Inv, Shape, Next, Enabled, FromOld, CleanAll, Grows;
    InvShape(c, l);
    ShapeLatest(c, l);
    StepInv(c, pw, l, s);
    StepGrows(c, pw, l, s);
    InvShape(c, Next(c, pw, l, s));
    StepFromOld(c, pw, l, s);
    FromOldClean(c, l, Next(c, pw, l, s));
  }

  // ------------------------------------------------------------- the order

  /** The last pack before pack `n` that holds data; behind it there are only
      zero-size flushes, which take no lsid. */
  lemma {:induction false} LastData(c: Setup, l: LogSt, n: nat) returns (i: int)
    requires Shape(c, l) && n <= |l.packs|
    ensures -1 <= i < n
    ensures i < 0 ==> StartOf(l, n) == l.base
    ensures i >= 0 ==> LoggedOf(c.g, l.packs[i].p) != [] && StartOf(l, n) == NextLsid(l.packs[i].p.header)
    decreases n
  {
    StartIs(c, l, n);
    hide Shape, LoggedOf, NextLsid, StartOf;
    if n == 0 {
      i := -1;
    } else if LoggedOf(c.g, l.packs[n - 1].p) != [] {
      i := n - 1;
    } else {
      i := LastData(c, l, n - 1);
      EmptyPack(c, l, n - 1);
    }
  }

  lemma EmptyPack(c: Setup, l: LogSt, i: nat)
    requires Shape(c, l) && i < |l.packs| && LoggedOf(c.g, l.packs[i].p) == []
    ensures NextLsid(l.packs[i].p.header) == StartOf(l, i)
  {
    ShapePack(c, l, i);
    LastEnds(c.g, l.packs[i].p);
    if l.packs[i].p.header.records != [] {
      AllRequests(c.g, l.packs[i].p);
    }
  }

  /** The writes of a pack that gc went over are permanent in the log. */
  lemma GcedIsPermanent(c: Setup, s: St, i: nat)
    requires PInv(c, s) && i < s.nGc
    ensures i < |s.l.packs|
    ensures LoggedOf(c.g, s.l.packs[i].p) != [] ==> LastEnd(c.g, s.l.packs[i].p) <= s.l.permanent
  {
    hide PInv, Inv, Shape, Promised, DInv, GcOk, SyncOk, RingOk, LoggedOf, CountBefore, OnMedium, EnvOf;
    PInvParts(c, s);
    GcCounts(c, s, i);
    var n := |LoggedOf(c.g, s.l.packs[i].p)|;
    if n > 0 {
      WriteAt(c, s.l, i, n - 1);
      GonePermanent(c, s, CountBefore(c, s.l, i) + n - 1);
    }
  }

  lemma GonePermanent(c: Setup, s: St, k: nat)
    requires PInv(c, s) && k < s.d.gone
    ensures k < |s.l.writes| && End(s.l.writes[k]) <= s.l.permanent
  {
    Durable(c, s);
    PInvParts(c, s);
    hide PInv, Inv, Shape, Promised, GcOk, SyncOk, RingOk, DInv;
    GoneSubmitted(EnvOf(s.l), s.d, k);
  }

  lemma GcCounts(c: Setup, s: St, i: nat)
    requires GcOk(c, s) && i < s.nGc
    ensures i < |s.l.packs| && CountBefore(c, s.l, i) + |LoggedOf(c.g, s.l.packs[i].p)| <= s.d.gone
  {
    hide HitBy, AllLogged, LoggedOf, CountBefore;
    OnePackMore(c, s.l, i);
    CountMonotone(c, s.l, i + 1, s.nGc);
  }

  lemma OnePackMore(c: Setup, l: LogSt, i: nat)
    requires i < |l.packs|
    ensures CountBefore(c, l, i + 1) == CountBefore(c, l, i) + |LoggedOf(c.g, l.packs[i].p)|
  {
    hide LoggedOf;
    var ps := Packs(l);
    assert ps[..i + 1] == ps[..i] + [ps[i]];
    AllLoggedConcat(c.g, ps[..i], [ps[i]]);
    AllLoggedOne(c.g, ps[i]);
  }

  lemma GoneSubmitted(e: Env, d: DataSt, k: nat)
    requires DInv(e, d) && k < d.gone
    ensures k in d.submitted
  {
    hide MapOk, HitsOk, PendOk, Free;
    assert k in d.finished;
  }

  /** The links of the order that hold in every reachable state. */
  lemma OrderHolds(c: Setup, s: St)
    requires PInv(c, s)
    ensures s.oldest <= s.prevWritten <= s.super <= s.written
    ensures s.l.permanent <= s.l.flush <= s.l.completed <= s.l.latest
  {
    PInvParts(c, s);
    InvRest(c, s.l);
    InvPosition(c, s.l);
    hide PInv, Inv, Promised, DInv, SyncOk, RingOk, HitBy, CountBefore;
    FlushFacts(s.l);
    EdgeBound(c, s.l);
    StartMono(c, s.l, s.l.nSub, |s.l.packs|);
    StartMono(c, s.l, s.nSuper, s.nGc);
    hide Shape, Position, FlushOk;
  }

  /** Gc has gone over pack `i`, and the FUA request at its end is the last thing
      known to be permanent. */
  ghost predicate Breaks(c: Setup, s: St, i: nat) {
    && i < s.nGc && i < |s.l.packs| && FuaTail(c.g, s.l.packs[i].p)
    && s.l.permanent == LastEnd(c.g, s.l.packs[i].p)
  }

  lemma BreaksPass(c: Setup, s: St, i: nat)
    requires Shape(c, s.l) && s.nGc <= |s.l.packs| && s.written == StartOf(s.l, s.nGc) && Breaks(c, s, i)
    ensures s.written > s.l.permanent
  {
    ShapePack(c, s.l, i);
    StartMono(c, s.l, i + 1, s.nGc);
    hide Shape, LoggedOf, NextLsid, StartOf, LastEnd;
  }

  lemma BreaksFound(c: Setup, s: St) returns (i: nat)
    requires PInv(c, s) && CleanAll(c, s.l) && s.written > s.l.permanent
    ensures Breaks(c, s, i)
  {
    PInvParts(c, s);
    InvRest(c, s.l);
    WrittenAt(c, s);
    hide PInv, Inv, Shape, Promised, DInv, GcOk, SyncOk, RingOk, LoggedOf, NextLsid, LastEnd, StartOf;
    FlushFacts(s.l);
    var n := LastData(c, s.l, s.nGc);
    i := n;
    GcedIsPermanent(c, s, i);
    assert InTail(c.g, s.l.packs[i].p, s.l.permanent);
  }

  /** The link written <= permanent fails exactly when gc has gone over a pack that
      ends in padding behind a FUA request and nothing later has been flushed. */
  lemma WrittenExactly(c: Setup, s: St)
    requires PInv(c, s) && CleanAll(c, s.l)
    ensures s.written > s.l.permanent <==> exists i :: Breaks(c, s, i)
  {
    PInvParts(c, s);
    WrittenAt(c, s);
    hide PInv, Inv, Shape, Promised, DInv, GcOk, SyncOk, RingOk, CleanAll, StartOf, Breaks;
    if s.written > s.l.permanent {
      var i := BreaksFound(c, s);
    }
    forall i | Breaks(c, s, i) ensures s.written > s.l.permanent {
      BreaksPass(c, s, i);
    }
  }

  lemma WrittenAt(c: Setup, s: St)
    requires GcOk(c, s)
    ensures s.written == StartOf(s.l, s.nGc) && s.nGc <= |s.l.packs|
  {
    hide HitBy, CountBefore;
  }

  /** So the whole order of lsid_set_is_valid holds in every reachable state if no
      pack ends in padding right behind a last request that is FUA. */
  lemma LsidSetIsValid(c: Setup, s: St)
    requires PInv(c, s) && CleanAll(c, s.l) && forall i | 0 <= i < |s.l.packs| :: !FuaTail(c.g, s.l.packs[i].p)
    ensures s.oldest <= s.prevWritten <= s.written <= s.l.permanent <= s.l.flush <= s.l.completed <= s.l.latest
  {
    hide PInv, CleanAll, FuaTail;
    OrderHolds(c, s);
    WrittenExactly(c, s);
  }

  lemma InitClean(c: Setup, base: nat)
    ensures CleanAll(c, LogSide.Init(base))
  {
  }

  lemma PCleanStep(c: Setup, s: St, p: PStep)
    requires c.g.ring >= MAX_TOTAL_IO_SIZE && PInv(c, s) && CleanAll(c, s.l) && Can(c, s, p)
    ensures CleanAll(c, Do(c, s, p).l)
  {
    PInvParts(c, s);
    hide Inv, Shape, Promised, DInv, GcOk, SyncOk, RingOk, CleanAll, Enabled, DEnabled, Next, DNext;
    if p.Log? {
      CleanStep(c, s.prevWritten, s.l, p.s);
    }
  }

  /** The counters of every state of every run are clean. */
  lemma {:induction false} RunClean(c: Setup, base: u64, run: seq<St>, i: nat)
    requires c.g.ring >= MAX_TOTAL_IO_SIZE && Run(c, base, run) && i < |run|
    ensures PInv(c, run[i]) && CleanAll(c, run[i].l)
    decreases i
  {
    hide PInv, CleanAll, Can, Do;
    RunInv(c, base, run, i);
    if i == 0 {
      InitClean(c, base);
    } else {
      RunClean(c, base, run, i - 1);
      assert OneStep(c, run[i - 1], run[i]);
      var p :| Follows(c, run[i - 1], run[i], p);
      PCleanStep(c, run[i - 1], p);
    }
  }
}
