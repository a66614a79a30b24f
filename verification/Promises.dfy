/** What an acknowledgement promises: FUA writes and everything acknowledged
    before an acknowledged flush was queued are on the medium. */
module Promises {
  import opened Words
  import opened LogRecord
  import opened Logpack
  import opened WritePack
  import opened Disk
  import opened LogDevice
  import opened RoundTrip
  import opened Recovery
  import opened Submit
  import opened Restart
  import opened LogSide

  // ------------------------------------------------- places of the log writes

  lemma TakeChained(ps: seq<Pack>, start: nat, end: nat, n: nat)
    requires Chained(ps, start, end) && n <= |ps|
    ensures Chained(ps[..n], start, if n < |ps| then ps[n].header.lsid else end)
  {
    assert n == |ps| ==> ps[..n] == ps;
  }

  lemma TakeGood(g: Geometry, ps: seq<Pack>, n: nat)
    requires GoodPacks(g, ps) && n <= |ps|
    ensures GoodPacks(g, ps[..n]) && GoodPacks(g, ps[n..])
  {
    hide PackOk, NoDiscards;
  }

  lemma SplitWrites(c: Setup, l: LogSt, n: nat)
    requires l.writes == AllLogged(c.g, Packs(l)) && n <= |l.packs|
    ensures l.writes == AllLogged(c.g, Packs(l)[..n]) + AllLogged(c.g, Packs(l)[n..])
    ensures CountBefore(c, l, n) <= |l.writes|
  {
    hide AllLogged;
    var ps := Packs(l);
    hide Packs;
    AllLoggedConcat(c.g, ps[..n], ps[n..]);
    assert ps[..n] + ps[n..] == ps;
  }

  lemma ShapeFacts(c: Setup, l: LogSt)
    requires Shape(c, l)
    ensures GoodPacks(c.g, Packs(l)) && Chained(Packs(l), l.base, l.latest)
    ensures l.writes == AllLogged(c.g, Packs(l)) && AllFit(WritesOf(l.writes), c.size)
    ensures l.nWait <= l.nSub <= |l.packs|
  {
  }

  /** The writes of the first `n` packs end where the next pack starts. */
  lemma WritesBefore(c: Setup, l: LogSt, n: nat, k: nat)
    requires Shape(c, l) && n <= |l.packs| && k < CountBefore(c, l, n)
    ensures k < |l.writes| && l.base <= l.writes[k].lsid <= End(l.writes[k]) <= StartOf(l, n)
  {
    ShapeFacts(c, l);
    hide Shape, GoodPacks, Chained, AllLogged, AllFit;
    SplitWrites(c, l, n);
    TakeGood(c.g, Packs(l), n);
    TakeChained(Packs(l), l.base, l.latest, n);
    LoggedInside(c.g, Packs(l)[..n], l.base, StartOf(l, n), k);
  }

  /** Write `j` of pack `n`, counted through all packs. */
  lemma WriteAt(c: Setup, l: LogSt, n: nat, j: nat)
    requires Shape(c, l) && n < |l.packs| && j < |LoggedOf(c.g, l.packs[n].p)|
    ensures CountBefore(c, l, n) + j < |l.writes|
    ensures l.writes[CountBefore(c, l, n) + j] == LoggedOf(c.g, l.packs[n].p)[j]
  {
    ShapeFacts(c, l);
    hide Shape, GoodPacks, Chained, AllFit, LoggedOf;
    SplitWrites(c, l, n);
    assert Packs(l)[n..][0] == l.packs[n].p;
  }

  /** Everything acknowledged is complete in the log. */
  lemma AckedComplete(c: Setup, l: LogSt)
    requires Shape(c, l) && Position(c, l)
    ensures AckedTo(l) <= l.edge && l.acked <= l.inserted <= |l.writes| && l.inserted <= l.acked + 1
  {
    ShapeFacts(c, l);
    EdgeBound(c, l);
    hide Shape, LoggedOf, AllLogged;
    SplitWrites(c, l, l.nWait);
    if l.phase.Between? || l.phase.j == 0 {
      AckedBefore(c, l);
      InsertedCount(c, l);
    } else {
      ShapePack(c, l, l.nWait);
      InsertedCount(c, l);
      AckedInPack(c, l);
    }
  }

  lemma InsertedCount(c: Setup, l: LogSt)
    requires Shape(c, l) && Position(c, l)
    ensures l.acked <= l.inserted <= |l.writes| && l.inserted <= l.acked + 1
  {
    ShapeFacts(c, l);
    hide Shape, LoggedOf, AllLogged, PartEdge;
    SplitWrites(c, l, l.nWait);
    if !l.phase.Between? {
      var n := if l.phase.Ready? then l.phase.j else l.phase.j + 1;
      if n > 0 {
        WriteAt(c, l, l.nWait, n - 1);
      }
    }
  }

  lemma AckedBefore(c: Setup, l: LogSt)
    requires Shape(c, l) && Position(c, l) && (l.phase.Between? || l.phase.j == 0) && StartOf(l, l.nWait) <= l.edge
    ensures AckedTo(l) <= l.edge
  {
    var a := l.acked;
    assert a == CountBefore(c, l, l.nWait);
    hide Position, CountBefore;
    StartMono(c, l, l.nWait, |l.packs|);
    StartMono(c, l, 0, l.nWait);
    if a > 0 {
      WritesBefore(c, l, l.nWait, a - 1);
    }
  }

  lemma AckedInPack(c: Setup, l: LogSt)
    requires Shape(c, l) && Position(c, l) && !l.phase.Between? && l.phase.j > 0
    requires PackOk(c.g, l.packs[l.nWait].p) && NoDiscards(l.packs[l.nWait].p)
    ensures AckedTo(l) <= l.edge
  {
    hide Shape, AllLogged, PackOk, NoDiscards, CountBefore, LoggedOf, NextLsid;
    var p, j := l.packs[l.nWait].p, l.phase.j;
    assert j <= |LoggedOf(c.g, p)| && l.acked == CountBefore(c, l, l.nWait) + j;
    WriteAt(c, l, l.nWait, j - 1);
    BetweenRequests(c.g, p, j - 1);
    LoggedHasRecords(c.g, p);
  }

  lemma LoggedHasRecords(g: Geometry, p: Pack)
    ensures LoggedOf(g, p) != [] ==> p.header.records != []
  {
  }

  // ------------------------------------------------------------ what only grows

  /** What no step takes back. */
  ghost predicate Grows(l: LogSt, l2: LogSt) {
    && l2.base == l.base && l.durable <= l2.durable && l.done <= l2.done && l.hdrDone <= l2.hdrDone
    && l.edge <= l2.edge && l.permanent <= l2.permanent && l.completed <= l2.completed && l.latest <= l2.latest
    && l.nSub <= l2.nSub && l.nWait <= l2.nWait && l.acked <= l2.acked && l.inserted <= l2.inserted
    && |l.packs| <= |l2.packs| && (forall i | 0 <= i < |l.packs| :: l2.packs[i] == l.packs[i])
    && l.writes <= l2.writes && l.issued <= l2.issued
    && l.fuaPromise <= l2.fuaPromise && l.flushes <= l2.flushes
    && (forall m | m in l2.issued && m !in l.issued :: l.edge <= m)
  }

  lemma CreateGrows(c: Setup, pw: nat, l: LogSt, n: nat, auto: bool)
    requires c.g.ring >= MAX_TOTAL_IO_SIZE && Inv(c, l) && Enabled(c, pw, l, Create(n, auto))
    ensures Grows(l, Next(c, pw, l, Create(n, auto)))
  {
    CreateEnabled(c, pw, l, n, auto);
    QueueOk(c, l);
    hide Shape, Position, IssuedOk, HeadersOk, FlushOk, PackAll, AllLogged, GoodPacks, AllFit, WritesOf, AllBios, Acceptable, Room;
    NewPacksOk(c, l, n);
    CreatedPacks(c, pw, l, n, auto);
    ChainEnds(PackAll(c.g, c.maxPb, l.latest, l.queue[..n]).packs, l.latest, PackAll(c.g, c.maxPb, l.latest, l.queue[..n]).latest);
  }

  lemma SubmitGrows(c: Setup, pw: nat, l: LogSt)
    requires Inv(c, l) && Enabled(c, pw, l, SubmitNext)
    ensures Grows(l, Next(c, pw, l, SubmitNext))
  {
    hide Position, IssuedOk, HeadersOk, FlushOk, BlocksOf;
    var l2 := Next(c, pw, l, SubmitNext);
    EdgeBound(c, l);
    hide Shape;
    forall m | m in l2.issued && m !in l.issued ensures l.edge <= m {
      BlocksAreInside(c, l, l.nSub, m);
    }
  }

  lemma BeginGrows(c: Setup, pw: nat, l: LogSt)
    requires Inv(c, l) && Enabled(c, pw, l, BeginPack)
    ensures Grows(l, Next(c, pw, l, BeginPack))
  {
    hide Shape, Position, IssuedOk, HeadersOk, FlushOk;
    BetweenEdge(c, l);
    BeginCovers(c, pw, l);
  }

  lemma WaitGrows(c: Setup, pw: nat, l: LogSt, s: LStep)
    requires Inv(c, l) && Enabled(c, pw, l, s) && (s.InsertPending? || s.FinishPack?)
    ensures Grows(l, Next(c, pw, l, s))
  {
    hide Shape, Position, IssuedOk, HeadersOk, FlushOk, LoggedOf, NextLsid;
    FlushFacts(l);
    if s.InsertPending? {
      InsertCovers(c, l, End(CurLogged(c, l)[l.phase.j]));
    } else {
      FinishCovers(c, l, NextLsid(l.packs[l.nWait].p.header));
    }
  }

  lemma MarkMoves(c: Setup, pw: nat, l: LogSt)
    requires Enabled(c, pw, l, MarkFua) && l.completed <= End(CurLogged(c, l)[l.phase.j])
    ensures Grows(l, Next(c, pw, l, MarkFua))
  {
    hide LoggedOf, AckedTo;
  }

  lemma IsInserted(c: Setup, pw: nat, l: LogSt)
    requires Enabled(c, pw, l, MarkFua)
    ensures l.phase.Inserted?
  {
    hide LoggedOf;
  }

  lemma MarkGrows(c: Setup, pw: nat, l: LogSt)
    requires Inv(c, l) && Enabled(c, pw, l, MarkFua)
    ensures Grows(l, Next(c, pw, l, MarkFua))
  {
    QueueOk(c, l);
    IsInserted(c, pw, l);
    hide Shape, Position, IssuedOk, HeadersOk, FlushOk, LoggedOf, Next, Enabled, Grows;
    FlushFacts(l);
    InsertedEdge(c, l);
    MarkMoves(c, pw, l);
  }

  lemma FuaGrows(c: Setup, pw: nat, l: LogSt, s: LStep)
    requires Enabled(c, pw, l, s) && (s.StartFua? || s.EndFua?)
    ensures Grows(l, Next(c, pw, l, s))
  {
    hide LoggedOf, AckedTo;
  }

  lemma AckGrows(c: Setup, pw: nat, l: LogSt)
    requires Enabled(c, pw, l, Ack)
    ensures Grows(l, Next(c, pw, l, Ack))
  {
    hide LoggedOf, AckedTo;
  }

  lemma DeviceGrows(c: Setup, pw: nat, l: LogSt, s: LStep)
    requires Enabled(c, pw, l, s) && (s.Push? || s.HeaderDone? || s.BlocksDone? || s.Destage? || s.EndFlush?)
    ensures Grows(l, Next(c, pw, l, s))
  {
    hide AckedTo;
  }

  lemma BeginFlushKeeps(c: Setup, pw: nat, l: LogSt)
    ensures Enabled(c, pw, l, BeginFlush) && Grows(l, Next(c, pw, l, BeginFlush))
  {
    BeginFlushNext(c, pw, l);
    hide Next, Enabled;
  }

  lemma StepGrows(c: Setup, pw: nat, l: LogSt, s: LStep)
    requires c.g.ring >= MAX_TOTAL_IO_SIZE && Inv(c, l) && Enabled(c, pw, l, s)
    ensures Grows(l, Next(c, pw, l, s))
  {
    hide Inv, Next, Enabled, Grows;
    match s
    case Push(_) => DeviceGrows(c, pw, l, s);
    case Create(n, auto) => CreateGrows(c, pw, l, n, auto);
    case SubmitNext => SubmitGrows(c, pw, l);
    case HeaderDone(_) => DeviceGrows(c, pw, l, s);
    case BlocksDone(_) => DeviceGrows(c, pw, l, s);
    case Destage(_) => DeviceGrows(c, pw, l, s);
    case BeginFlush => BeginFlushKeeps(c, pw, l);
    case EndFlush(_) => DeviceGrows(c, pw, l, s);
    case BeginPack => BeginGrows(c, pw, l);
    case InsertPending => WaitGrows(c, pw, l, s);
    case MarkFua => MarkGrows(c, pw, l);
    case StartFua => FuaGrows(c, pw, l, s);
    case EndFua => FuaGrows(c, pw, l, s);
    case Ack => AckGrows(c, pw, l);
    case FinishPack => WaitGrows(c, pw, l, s);
  }

  // --------------------------------------------------------------- FUA writes

  ghost predicate FuaKept(l: LogSt) {
    l.fuaPromise <= l.permanent
  }

  lemma PromisesStay(c: Setup, pw: nat, l: LogSt, s: LStep)
    requires Enabled(c, pw, l, s) && !s.Ack? && !s.BeginPack?
    ensures Next(c, pw, l, s).fuaPromise == l.fuaPromise && Next(c, pw, l, s).flushes == l.flushes
  {
    hide LoggedOf, AckedTo, PackAll, AllLogged, NewPacks, BlocksOf, WithPromise, NextLsid, Acceptable, Room;
  }

  /** What an acknowledgement adds to the promises. */
  lemma AckPromise(c: Setup, pw: nat, l: LogSt)
    requires Enabled(c, pw, l, Ack)
    ensures !l.phase.Between? && l.nWait < |l.packs| && l.phase.j < |l.packs[l.nWait].p.bios|
    ensures var l2, b := Next(c, pw, l, Ack), CurBio(l, l.phase.j);
      && l2.fuaPromise == (if b.fua then Max(l.fuaPromise, End(CurLogged(c, l)[l.phase.j])) else l.fuaPromise)
      && l2.flushes == (if b.flush then l.flushes + [AckedFlush(b.stamp, l.nWait)] else l.flushes)
      && l2.permanent == l.permanent && l2.durable == l.durable && l2.edge == l.edge && l2.issued == l.issued
      && l2.nWait == l.nWait < |l.packs| && l2.packs == l.packs && l2.phase == Ready(l.phase.j + 1)
      && CurLogged(c, l)[l.phase.j].fua == b.fua && (b.fua ==> l.phase.Flushed?)
      && (l.phase.Flushed? || l.phase.Inserted?)
  {
  }

  lemma BeginPromise(c: Setup, pw: nat, l: LogSt)
    requires Enabled(c, pw, l, BeginPack)
    ensures var l2, p := Next(c, pw, l, BeginPack), l.packs[l.nWait].p;
      && l2.fuaPromise <= Max(l.fuaPromise, l.base)
      && l2.flushes == (if p.header.records == [] && p.bios != [] && p.bios[0].flush
                        then l.flushes + [AckedFlush(p.bios[0].stamp, l.nWait)] else l.flushes)
      && l2.issued == l.issued && l2.durable == l.durable
      && l.phase.Between? && l.nWait < |l.packs| && (HasHeaderIo(l.packs[l.nWait]) ==> l.nWait in l.hdrDone)
  {
  }

  lemma AckFua(c: Setup, l: LogSt)
    requires l.nWait < |l.packs| && Position(c, l) && l.phase.Flushed?
    ensures l.phase.j < |CurLogged(c, l)| && End(CurLogged(c, l)[l.phase.j]) == l.edge <= l.permanent
  {
  }

  lemma FuaStep(c: Setup, pw: nat, l: LogSt, s: LStep)
    requires c.g.ring >= MAX_TOTAL_IO_SIZE && Inv(c, l) && Enabled(c, pw, l, s) && FuaKept(l)
    ensures FuaKept(Next(c, pw, l, s))
  {
    QueueOk(c, l);
    hide Shape, Position, IssuedOk, HeadersOk, FlushOk, Enabled, Next;
    FlushFacts(l);
    if s.Ack? {
      AckPromise(c, pw, l);
      if l.phase.Flushed? {
        AckFua(c, l);
      }
    } else {
      StepGrows(c, pw, l, s);
      if s.BeginPack? {
        BeginPromise(c, pw, l);
      } else {
        PromisesStay(c, pw, l, s);
      }
    }
  }

  // ------------------------------------------------------------------ flushes

  /** Every submitted block below `x` is on the medium. */
  ghost predicate OnMedium(l: LogSt, x: nat) {
    x <= l.edge && Below(l, l.durable, x)
  }

  lemma OnMediumStays(l: LogSt, l2: LogSt, x: nat)
    requires Grows(l, l2) && OnMedium(l, x)
    ensures OnMedium(l2, x)
  {
  }

  lemma BelowStays(l: LogSt, l2: LogSt, s: set<nat>, x: nat)
    requires Grows(l, l2) && Below(l, s, x) && x <= l.edge
    ensures Below(l2, s, x)
  {
  }

  /** The first request of the pack is a flush but not FUA, it may have to carry
      the flush of its batch, and it does not because another request of the pack
      is FUA (pack_header_should_flush). */
  predicate Unguarded(p: LPack, i: nat) {
    p.batch == i && p.p.bios != [] && p.p.bios[0].flush && !p.p.bios[0].fua && p.p.fua
  }

  /** What makes the flush that begins pack `i` safe: the first pack of its batch
      flushed the device after the request was queued, or has a FUA request. */
  ghost predicate StampOk(l: LogSt, i: nat)
    requires i < |l.packs| && l.packs[i].p.bios != []
  {
    var b, f := l.packs[i].p.bios[0], l.packs[i].batch;
    && f <= i
    && (b.flush ==>
          && b.stamp <= l.edge && b.stamp <= StartOf(l, f)
          && (b.fua || l.packs[f].p.fua || (l.packs[f].shouldFlush && Below(l, l.packs[f].tok.snap, b.stamp))))
  }

  ghost predicate Stamps(l: LogSt) {
    && (forall k | 0 <= k < |l.queue| :: l.queue[k].stamp <= l.edge)
    && (forall i | 0 <= i < |l.packs| :: l.packs[i].p.bios != [] && StampOk(l, i))
  }

  /** A header flush and a FUA request exclude each other in a pack. */
  ghost predicate HeaderOrFua(l: LogSt) {
    forall i | 0 <= i < |l.packs| :: !(l.packs[i].shouldFlush && l.packs[i].p.fua)
  }

  /** Behind every FUA request that is through, the log is permanent: in the
      first `n` packs, and among the first `j` requests of a pack. */
  ghost predicate FuaBefore(l: LogSt, n: nat) {
    forall q | 0 <= q < |l.packs| && q < n && l.packs[q].p.fua :: StartOf(l, q) <= l.permanent
  }

  ghost predicate FuaHere(l: LogSt, bios: seq<Bio>, j: nat, start: nat) {
    forall i | 0 <= i < |bios| && i < j && bios[i].fua :: start <= l.permanent
  }

  ghost predicate FuaDone(l: LogSt) {
    && FuaBefore(l, l.nWait)
    && (l.nWait < |l.packs| && !l.phase.Between? ==>
          FuaHere(l, l.packs[l.nWait].p.bios, l.phase.j, StartOf(l, l.nWait)))
  }

  /** Every acknowledged flush keeps its promise, unless its own pack defeated the
      flush of its batch. */
  ghost predicate FlushKept(l: LogSt) {
    forall n | 0 <= n < |l.flushes| :: KeepsFlush(l, l.flushes[n])
  }

  ghost predicate KeepsFlush(l: LogSt, f: AckedFlush) {
    f.pack < |l.packs| && (!Unguarded(l.packs[f.pack], f.pack) ==> OnMedium(l, f.stamp))
  }

  ghost predicate Promised(l: LogSt) {
    FuaKept(l) && Stamps(l) && FuaDone(l) && FlushKept(l) && HeaderOrFua(l)
  }

  lemma InitPromised(base: u64)
    ensures Promised(Init(base))
  {
  }

  lemma StampStays(l: LogSt, l2: LogSt, i: nat)
    requires Grows(l, l2) && i < |l.packs| && l.packs[i].p.bios != [] && StampOk(l, i)
    ensures l2.packs[i].p.bios != [] && StampOk(l2, i)
  {
    var b, f := l.packs[i].p.bios[0], l.packs[i].batch;
    if b.flush && Below(l, l.packs[f].tok.snap, b.stamp) {
      BelowStays(l, l2, l.packs[f].tok.snap, b.stamp);
    }
    hide Below;
  }

  /** Steps that neither queue nor create. */
  lemma StampsStay(c: Setup, pw: nat, l: LogSt, s: LStep)
    requires Enabled(c, pw, l, s) && Grows(l, Next(c, pw, l, s)) && Stamps(l) && !s.Push? && !s.Create?
    ensures Stamps(Next(c, pw, l, s))
  {
    QueueStays(c, pw, l, s);
    hide Enabled, Next, StampOk;
    var l2 := Next(c, pw, l, s);
    forall i | 0 <= i < |l2.packs| ensures l2.packs[i].p.bios != [] && StampOk(l2, i) {
      StampStays(l, l2, i);
    }
  }

  lemma QueueStays(c: Setup, pw: nat, l: LogSt, s: LStep)
    requires !s.Push? && !s.Create? && Enabled(c, pw, l, s)
    ensures Next(c, pw, l, s).queue == l.queue && |Next(c, pw, l, s).packs| == |l.packs|
  {
    hide LoggedOf, AckedTo, Created, BlocksOf, NextLsid, Acceptable, Room;
  }

  lemma PushStamps(c: Setup, pw: nat, l: LogSt, b: Bio)
    requires Inv(c, l) && Stamps(l) && Enabled(c, pw, l, Push(b))
    ensures Stamps(Next(c, pw, l, Push(b)))
  {
    hide Shape, Position, IssuedOk, HeadersOk, FlushOk, AckedTo;
    AckedComplete(c, l);
    var l2 := Next(c, pw, l, Push(b));
    hide StampOk;
    DeviceGrows(c, pw, l, Push(b));
    hide Grows;
    forall i | 0 <= i < |l2.packs| ensures l2.packs[i].p.bios != [] && StampOk(l2, i) {
      StampStays(l, l2, i);
    }
  }

  /** A new pack: its first request was in the queue, so its stamp is below the
      edge and below the pack, and what is complete now covers it. */
  lemma NewStampOk(l: LogSt, l2: LogSt, ps: seq<Pack>, isFlush: bool, i: nat)
    requires l2.packs == l.packs + NewPacks(l, ps, isFlush) && i < |ps| && ps[i].bios != []
    requires StartOf(l2, |l.packs|) == l.latest >= l.edge && l2.edge == l.edge && l2.issued == l.issued
    requires Below(l, l.done, l.edge) && ps[i].bios[0].stamp <= l.edge
    requires ps[i].bios[0].flush && !ps[i].bios[0].fua ==> isFlush
    ensures StampOk(l2, |l.packs| + i)
  {
    var f := |l.packs|;
    assert l2.packs[f + i] == NewPacks(l, ps, isFlush)[i];
    assert l2.packs[f] == NewPacks(l, ps, isFlush)[0];
    hide StartOf;
  }

  lemma FirstQueued(l: LogSt, n: nat, ps: seq<Pack>, i: nat)
    requires n <= |l.queue| && AllBios(ps) == l.queue[..n] && i < |ps| && ps[i].bios != []
    requires forall k | 0 <= k < |l.queue| :: l.queue[k].stamp <= l.edge
    ensures ps[i].bios[0] in l.queue[..n] && ps[i].bios[0].stamp <= l.edge
  {
    BioAmongAll(ps, i, 0);
  }

  lemma EdgeBelowLatest(c: Setup, l: LogSt)
    requires Inv(c, l) && l.nSub == |l.packs|
    ensures l.edge <= l.latest
  {
    hide Shape, Position, IssuedOk, HeadersOk, FlushOk;
    EdgeBound(c, l);
  }

  lemma CreateQueue(c: Setup, pw: nat, l: LogSt, n: nat, auto: bool)
    requires Enabled(c, pw, l, Create(n, auto)) && l.latest < U64_SIZE && n <= |l.queue|
    ensures var l2, st := Next(c, pw, l, Create(n, auto)), PackAll(c.g, c.maxPb, l.latest, l.queue[..n]);
      && l2.packs == l.packs + NewPacks(l, st.packs, st.isFlush || auto) && l2.queue == l.queue[n..]
      && l2.edge == l.edge && l2.issued == l.issued
  {
    hide PackAll, AllLogged, Room;
  }

  lemma PackHasBios(c: Setup, ps: seq<Pack>, i: nat)
    requires GoodPacks(c.g, ps) && i < |ps|
    ensures ps[i].bios != []
  {
    assert PackOk(c.g, ps[i]);
  }

  /** The state after packing, in terms of the new packs `ps`. */
  ghost predicate PackedInto(c: Setup, l: LogSt, l2: LogSt, n: nat, ps: seq<Pack>, isFlush: bool) {
    && n <= |l.queue| && l2.packs == l.packs + NewPacks(l, ps, isFlush) && l2.queue == l.queue[n..]
    && l2.edge == l.edge <= l.latest && l2.issued == l.issued && Below(l, l.done, l.edge)
    && GoodPacks(c.g, ps) && AllBios(ps) == l.queue[..n] && StartOf(l2, |l.packs|) == l.latest
    && (forall b | b in l.queue[..n] && b.flush && !b.fua :: isFlush)
  }

  lemma CreatePacked(c: Setup, pw: nat, l: LogSt, n: nat, auto: bool)
    requires c.g.ring >= MAX_TOTAL_IO_SIZE && Inv(c, l) && Enabled(c, pw, l, Create(n, auto))
    ensures n <= |l.queue| && l.latest < U64_SIZE
    ensures var st := PackAll(c.g, c.maxPb, l.latest, l.queue[..n]);
      PackedInto(c, l, Next(c, pw, l, Create(n, auto)), n, st.packs, st.isFlush || auto)
  {
    CreateEnabled(c, pw, l, n, auto);
    QueueOk(c, l);
    EdgeBelowLatest(c, l);
    hide Inv, PackAll, GoodPacks, Chained, AllLogged, AllFit, Acceptable, Room, WritesOf, AllBios, Enabled, Next, NewPacks, Packs;
    NewPacksOk(c, l, n);
    CompleteBelow(c, l);
    CreateQueue(c, pw, l, n, auto);
    CreatedPacks(c, pw, l, n, auto);
    CreateStart(c, l, Next(c, pw, l, Create(n, auto)), PackAll(c.g, c.maxPb, l.latest, l.queue[..n]).packs);
  }

  lemma PackedStamps(c: Setup, l: LogSt, l2: LogSt, n: nat, ps: seq<Pack>, isFlush: bool)
    requires PackedInto(c, l, l2, n, ps, isFlush) && Stamps(l) && Grows(l, l2)
    ensures Stamps(l2)
  {
    hide StampOk, NewPacks, Grows, GoodPacks, AllBios, StartOf, Below;
    forall i | 0 <= i < |l2.packs| ensures l2.packs[i].p.bios != [] && StampOk(l2, i) {
      if i < |l.packs| {
        StampStays(l, l2, i);
      } else {
        NewPackBios(c, l, l2, ps, isFlush, i - |l.packs|);
        FirstQueued(l, n, ps, i - |l.packs|);
        NewStampOk(l, l2, ps, isFlush, i - |l.packs|);
      }
    }
  }

  lemma CreateStamps(c: Setup, pw: nat, l: LogSt, n: nat, auto: bool)
    requires c.g.ring >= MAX_TOTAL_IO_SIZE && Inv(c, l) && Stamps(l) && Enabled(c, pw, l, Create(n, auto))
    ensures Stamps(Next(c, pw, l, Create(n, auto)))
  {
    hide Inv, Stamps, Enabled, Next, PackedInto, PackAll;
    CreateGrows(c, pw, l, n, auto);
    CreatePacked(c, pw, l, n, auto);
    var st := PackAll(c.g, c.maxPb, l.latest, l.queue[..n]);
    PackedStamps(c, l, Next(c, pw, l, Create(n, auto)), n, st.packs, st.isFlush || auto);
  }

  lemma NewPackBios(c: Setup, l: LogSt, l2: LogSt, ps: seq<Pack>, isFlush: bool, i: nat)
    requires l2.packs == l.packs + NewPacks(l, ps, isFlush) && GoodPacks(c.g, ps) && i < |ps|
    ensures l2.packs[|l.packs| + i].p == ps[i] && ps[i].bios != []
  {
    PackHasBios(c, ps, i);
    assert l2.packs[|l.packs| + i] == NewPacks(l, ps, isFlush)[i];
  }

  lemma CompleteBelow(c: Setup, l: LogSt)
    requires Inv(c, l)
    ensures Below(l, l.done, l.edge)
  {
    hide Shape, Position, IssuedOk, HeadersOk, Below;
  }

  lemma StampsStep(c: Setup, pw: nat, l: LogSt, s: LStep)
    requires c.g.ring >= MAX_TOTAL_IO_SIZE && Inv(c, l) && Enabled(c, pw, l, s) && Stamps(l)
    ensures Stamps(Next(c, pw, l, s))
  {
    hide Inv, Next, Enabled, Stamps;
    if s.Push? {
      PushStamps(c, pw, l, s.b);
    } else if s.Create? {
      CreateStamps(c, pw, l, s.n, s.auto);
    } else {
      StepGrows(c, pw, l, s);
      StampsStay(c, pw, l, s);
    }
  }

  lemma WaitSame(c: Setup, pw: nat, l: LogSt, s: LStep)
    requires Enabled(c, pw, l, s) && !s.Ack? && !s.FinishPack? && !s.BeginPack?
    ensures var l2 := Next(c, pw, l, s);
      && l2.nWait == l.nWait && (l2.phase.Between? <==> l.phase.Between?)
      && (!l.phase.Between? ==> l2.phase.j == l.phase.j)
  {
    hide LoggedOf, AckedTo, PackAll, AllLogged, NewPacks, BlocksOf, WithPromise, NextLsid, Acceptable, Room;
  }

  lemma FuaBeforeStays(l: LogSt, l2: LogSt, n: nat)
    requires Grows(l, l2) && FuaBefore(l, n) && n <= |l.packs|
    ensures FuaBefore(l2, n)
  {
    forall q | 0 <= q < |l2.packs| && q < n && l2.packs[q].p.fua ensures StartOf(l2, q) <= l2.permanent {
      assert l2.packs[q] == l.packs[q];
    }
  }

  lemma FuaDoneSame(c: Setup, l: LogSt, l2: LogSt)
    requires Inv(c, l) && Grows(l, l2) && FuaDone(l) && l2.nWait == l.nWait && (l2.phase.Between? <==> l.phase.Between?)
    requires !l.phase.Between? ==> l2.phase.j == l.phase.j
    ensures FuaDone(l2)
  {
    InvPosition(c, l);
    WaitInside(c, l);
    hide Inv, Position, FuaBefore;
    FuaBeforeStays(l, l2, l.nWait);
    if !l.phase.Between? {
      assert l2.packs[l.nWait] == l.packs[l.nWait];
    }
  }

  /** At the end of a FUA flush the log is permanent past the start of its pack. */
  lemma FuaEdge(c: Setup, l: LogSt)
    requires Inv(c, l) && l.nWait < |l.packs| && l.phase.Flushed?
    ensures StartOf(l, l.nWait) <= l.permanent
  {
    InvShape(c, l);
    InvPosition(c, l);
    hide Inv, Shape, Position, StartOf;
    EdgeBound(c, l);
    AckFua(c, l);
  }

  lemma FuaHereMore(l: LogSt, l2: LogSt, bios: seq<Bio>, j: nat, start: nat)
    requires FuaHere(l, bios, j, start) && j < |bios| && l2.permanent == l.permanent
    requires bios[j].fua ==> start <= l.permanent
    ensures FuaHere(l2, bios, j + 1, start)
  {
  }

  lemma AckFuaDone(c: Setup, pw: nat, l: LogSt)
    requires Inv(c, l) && Enabled(c, pw, l, Ack) && FuaDone(l)
    ensures FuaDone(Next(c, pw, l, Ack))
  {
    AckPromise(c, pw, l);
    AckGrows(c, pw, l);
    hide Enabled, Next, FuaBefore, FuaHere;
    InvPosition(c, l);
    if l.phase.Flushed? {
      FuaEdge(c, l);
    }
    hide Inv, Position, Grows;
    var l2 := Next(c, pw, l, Ack);
    AckStarts(c, pw, l);
    FuaBeforeStays(l, l2, l.nWait);
    FuaHereMore(l, l2, l.packs[l.nWait].p.bios, l.phase.j, StartOf(l, l.nWait));
  }

  lemma AckStarts(c: Setup, pw: nat, l: LogSt)
    requires Enabled(c, pw, l, Ack) && l.nWait < |l.packs|
    ensures StartOf(Next(c, pw, l, Ack), l.nWait) == StartOf(l, l.nWait)
  {
    hide LoggedOf, AckedTo;
  }

  lemma InvShape(c: Setup, l: LogSt)
    requires Inv(c, l)
    ensures Shape(c, l)
  {
    hide Shape, Position, IssuedOk, HeadersOk, FlushOk;
  }

  lemma InvPosition(c: Setup, l: LogSt)
    requires Inv(c, l)
    ensures l.nWait <= l.nSub <= |l.packs| && Position(c, l)
  {
    hide Position, IssuedOk, HeadersOk, FlushOk;
  }

  /** A FUA pack has a FUA request, and it has been through. */
  lemma FuaInPack(g: Geometry, p: Pack) returns (i: nat)
    requires PackOk(g, p) && p.fua
    ensures i < |p.bios| == |LoggedOf(g, p)| && p.bios[i].fua
  {
    var b :| b in p.bios && b.fua;
    i :| 0 <= i < |p.bios| && p.bios[i] == b;
    assert ValidBio(p.bios[0]);
  }

  lemma FinishMoves(c: Setup, pw: nat, l: LogSt)
    requires Enabled(c, pw, l, FinishPack)
    ensures var l2 := Next(c, pw, l, FinishPack);
      && l.nWait < |l.packs| && l.phase == Ready(|CurLogged(c, l)|) && l2.packs == l.packs && l2.permanent == l.permanent
      && l2.nWait == l.nWait + 1 && l2.phase.Between?
  {
    hide LoggedOf, NextLsid;
  }

  lemma FuaNext(l: LogSt, n: nat)
    requires FuaBefore(l, n) && n < |l.packs| && (l.packs[n].p.fua ==> StartOf(l, n) <= l.permanent)
    ensures FuaBefore(l, n + 1)
  {
    hide StartOf;
  }

  lemma FinishFuaDone(c: Setup, pw: nat, l: LogSt)
    requires Inv(c, l) && Enabled(c, pw, l, FinishPack) && FuaDone(l)
    ensures FuaDone(Next(c, pw, l, FinishPack))
  {
    FinishMoves(c, pw, l);
    hide Enabled, Next, FuaBefore, StartOf;
    InvShape(c, l);
    hide Inv;
    ShapePack(c, l, l.nWait);
    hide Shape, PackOk, NoDiscards;
    var p := l.packs[l.nWait].p;
    if p.fua {
      var i := FuaInPack(c.g, p);
      assert p.bios[i].fua;
    }
    hide LoggedOf, FuaHere;
    FuaNext(l, l.nWait);
    FuaSame(l, Next(c, pw, l, FinishPack), l.nWait + 1);
  }

  lemma FuaSame(l: LogSt, l2: LogSt, n: nat)
    requires FuaBefore(l, n) && l2.packs == l.packs && l2.permanent == l.permanent && n <= |l.packs|
    ensures FuaBefore(l2, n)
  {
    forall q | 0 <= q < |l2.packs| && q < n && l2.packs[q].p.fua ensures StartOf(l2, q) <= l2.permanent {
      assert StartOf(l2, q) == StartOf(l, q);
    }
  }

  lemma BeginFuaDone(c: Setup, pw: nat, l: LogSt)
    requires Enabled(c, pw, l, BeginPack) && FuaDone(l) && Grows(l, Next(c, pw, l, BeginPack))
    ensures FuaDone(Next(c, pw, l, BeginPack))
  {
  }

  lemma FuaDoneStep(c: Setup, pw: nat, l: LogSt, s: LStep)
    requires c.g.ring >= MAX_TOTAL_IO_SIZE && Inv(c, l) && Enabled(c, pw, l, s) && FuaDone(l)
    ensures FuaDone(Next(c, pw, l, s))
  {
    hide Inv, Next, Enabled, FuaDone, Grows;
    StepGrows(c, pw, l, s);
    if s.Ack? {
      AckFuaDone(c, pw, l);
    } else if s.FinishPack? {
      FinishFuaDone(c, pw, l);
    } else if s.BeginPack? {
      BeginFuaDone(c, pw, l);
    } else {
      WaitSame(c, pw, l, s);
      FuaDoneSame(c, l, Next(c, pw, l, s));
    }
  }

  /** A flush that comes to be acknowledged: everything below its stamp is on the
      medium by then. */
  lemma FlushReady(c: Setup, l: LogSt)
    requires l.nWait < |l.packs| && !Unguarded(l.packs[l.nWait], l.nWait) && Inv(c, l) && Stamps(l) && FuaDone(l)
    requires HasHeaderIo(l.packs[l.nWait]) ==> l.nWait in l.hdrDone
    requires l.packs[l.nWait].p.bios != [] && l.packs[l.nWait].p.bios[0].flush && !l.packs[l.nWait].p.bios[0].fua
    ensures OnMedium(l, l.packs[l.nWait].p.bios[0].stamp)
  {
    InvPosition(c, l);
    InvRest(c, l);
    hide Inv, Position, Grows, OnMedium;
    var i := l.nWait;
    var b, f := l.packs[i].p.bios[0], l.packs[i].batch;
    assert StampOk(l, i);
    if l.packs[f].p.fua {
      PermanentOnMedium(l, b.stamp);
    } else {
      assert HasHeaderIo(l.packs[f]) && f in l.hdrDone;
      SnapOnMedium(l, f, b.stamp);
    }
  }

  lemma InvRest(c: Setup, l: LogSt)
    requires Inv(c, l)
    ensures HeadersOk(l) && FlushOk(l)
  {
    hide Shape, Position, IssuedOk, HeadersOk, FlushOk;
  }

  lemma PermanentOnMedium(l: LogSt, x: nat)
    requires FlushOk(l) && x <= l.permanent
    ensures OnMedium(l, x)
  {
  }

  lemma SnapOnMedium(l: LogSt, f: nat, x: nat)
    requires HeadersOk(l) && f in l.hdrDone && f < |l.packs| && l.packs[f].shouldFlush
    requires Below(l, l.packs[f].tok.snap, x) && x <= l.edge
    ensures OnMedium(l, x)
  {
  }

  lemma OnlyFirstFlushes(c: Setup, l: LogSt, j: nat)
    requires Shape(c, l) && l.nWait < |l.packs| && j < |l.packs[l.nWait].p.bios| && CurBio(l, j).flush
    ensures j == 0
  {
    ShapePack(c, l, l.nWait);
  }

  lemma HeaderBegun(l: LogSt)
    requires HeadersOk(l) && !l.phase.Between? && l.nWait < |l.packs|
    ensures HasHeaderIo(l.packs[l.nWait]) ==> l.nWait in l.hdrDone
  {
  }

  lemma FirstStamp(l: LogSt)
    requires Stamps(l) && l.nWait < |l.packs|
    ensures l.packs[l.nWait].p.bios != []
    ensures l.packs[l.nWait].p.bios[0].flush ==> l.packs[l.nWait].p.bios[0].stamp <= l.edge
  {
    assert StampOk(l, l.nWait);
  }

  lemma FuaCovers(c: Setup, l: LogSt, x: nat)
    requires Inv(c, l) && l.nWait < |l.packs| && l.phase.Flushed? && x <= l.edge
    ensures OnMedium(l, x)
  {
    InvPosition(c, l);
    InvRest(c, l);
    hide Inv, FlushOk, OnMedium;
    AckFua(c, l);
    PermanentOnMedium(l, x);
  }

  lemma HeaderCovers(c: Setup, l: LogSt)
    requires l.nWait < |l.packs| && !l.phase.Between? && !Unguarded(l.packs[l.nWait], l.nWait)
    requires Inv(c, l) && Stamps(l) && FuaDone(l)
    requires l.packs[l.nWait].p.bios != [] && l.packs[l.nWait].p.bios[0].flush && !l.packs[l.nWait].p.bios[0].fua
    ensures OnMedium(l, l.packs[l.nWait].p.bios[0].stamp)
  {
    hide Stamps, FuaDone, Unguarded, OnMedium;
    InvRest(c, l);
    hide Inv;
    HeaderBegun(l);
    FlushReady(c, l);
  }

  lemma AckCovers(c: Setup, pw: nat, l: LogSt)
    requires !l.phase.Between? && l.nWait < |l.packs| && l.phase.j < |l.packs[l.nWait].p.bios|
    requires CurBio(l, l.phase.j).flush && !Unguarded(l.packs[l.nWait], l.nWait)
    requires Inv(c, l) && Enabled(c, pw, l, Ack) && Stamps(l) && FuaDone(l)
    ensures OnMedium(l, CurBio(l, l.phase.j).stamp)
  {
    hide Inv, Enabled, Next, Stamps, FuaDone, Unguarded, OnMedium;
    AckPromise(c, pw, l);
    InvShape(c, l);
    OnlyFirstFlushes(c, l, l.phase.j);
    FirstStamp(l);
    if CurBio(l, l.phase.j).fua {
      FuaCovers(c, l, CurBio(l, l.phase.j).stamp);
    } else {
      HeaderCovers(c, l);
    }
  }

  /** Old flushes stay kept, and so does a new one that is kept when acknowledged. */
  lemma FlushesKept(l: LogSt, l2: LogSt, f: AckedFlush)
    requires Grows(l, l2) && FlushKept(l) && (l2.flushes == l.flushes || l2.flushes == l.flushes + [f])
    requires l2.flushes == l.flushes || KeepsFlush(l, f)
    ensures FlushKept(l2)
  {
    hide KeepsFlush;
    forall n | 0 <= n < |l2.flushes| ensures KeepsFlush(l2, l2.flushes[n]) {
      if n < |l.flushes| {
        assert l2.flushes[n] == l.flushes[n];
      }
      KeepsOn(l, l2, l2.flushes[n]);
    }
  }

  lemma KeepsOn(l: LogSt, l2: LogSt, f: AckedFlush)
    requires Grows(l, l2) && KeepsFlush(l, f)
    ensures KeepsFlush(l2, f)
  {
    assert l2.packs[f.pack] == l.packs[f.pack];
    if !Unguarded(l.packs[f.pack], f.pack) {
      OnMediumStays(l, l2, f.stamp);
    }
    hide OnMedium, Grows;
  }

  lemma AckFlush(c: Setup, pw: nat, l: LogSt)
    requires Inv(c, l) && Enabled(c, pw, l, Ack) && Stamps(l) && FuaDone(l) && FlushKept(l)
    ensures FlushKept(Next(c, pw, l, Ack))
  {
    hide Inv, Next, Enabled, Stamps, FuaDone, Grows, Unguarded, OnMedium, FlushKept;
    AckPromise(c, pw, l);
    AckGrows(c, pw, l);
    if CurBio(l, l.phase.j).flush && !Unguarded(l.packs[l.nWait], l.nWait) {
      AckCovers(c, pw, l);
    }
    FlushesKept(l, Next(c, pw, l, Ack), AckedFlush(CurBio(l, l.phase.j).stamp, l.nWait));
  }

  lemma ZeroFlushIsPlain(c: Setup, l: LogSt)
    requires Inv(c, l) && l.nWait < |l.packs| && l.packs[l.nWait].p.header.records == []
    ensures l.packs[l.nWait].p.bios != [] && !l.packs[l.nWait].p.bios[0].fua
  {
    ShapePack(c, l, l.nWait);
    hide Inv;
    assert ValidBio(l.packs[l.nWait].p.bios[0]);
  }

  /** A zero-size flush is alone in its pack, so nothing defeats its flush. */
  lemma ZeroFlushGuarded(c: Setup, l: LogSt)
    requires l.nWait < |l.packs| && l.packs[l.nWait].p.header.records == [] && Inv(c, l)
    ensures !Unguarded(l.packs[l.nWait], l.nWait)
  {
    ShapePack(c, l, l.nWait);
    hide Inv;
    assert ValidBio(l.packs[l.nWait].p.bios[0]);
  }

  lemma BeginFlushed(c: Setup, pw: nat, l: LogSt)
    requires Inv(c, l) && Enabled(c, pw, l, BeginPack) && Stamps(l) && FuaDone(l) && FlushKept(l)
    ensures FlushKept(Next(c, pw, l, BeginPack))
  {
    hide Inv, Next, Enabled, Stamps, FuaDone, Grows, Unguarded, OnMedium, FlushKept;
    BeginPromise(c, pw, l);
    BeginGrows(c, pw, l);
    var l2, p := Next(c, pw, l, BeginPack), l.packs[l.nWait].p;
    if p.header.records == [] && p.bios != [] && p.bios[0].flush {
      ZeroFlushIsPlain(c, l);
      ZeroFlushGuarded(c, l);
      FlushReady(c, l);
      FlushesKept(l, l2, AckedFlush(p.bios[0].stamp, l.nWait));
    } else {
      FlushesKept(l, l2, AckedFlush(0, 0));
    }
  }

  lemma FlushStep(c: Setup, pw: nat, l: LogSt, s: LStep)
    requires c.g.ring >= MAX_TOTAL_IO_SIZE && Inv(c, l) && Enabled(c, pw, l, s) && Stamps(l) && FuaDone(l) && FlushKept(l)
    ensures FlushKept(Next(c, pw, l, s))
  {
    hide Inv, Next, Enabled, Stamps, FuaDone, Grows, FlushKept, OnMedium;
    if s.Ack? {
      AckFlush(c, pw, l);
    } else if s.BeginPack? {
      BeginFlushed(c, pw, l);
    } else {
      StepGrows(c, pw, l, s);
      PromisesStay(c, pw, l, s);
      FlushesKept(l, Next(c, pw, l, s), AckedFlush(0, 0));
    }
  }

  lemma HeaderOrFuaStep(c: Setup, pw: nat, l: LogSt, s: LStep)
    requires l.latest < U64_SIZE && Enabled(c, pw, l, s) && HeaderOrFua(l)
    ensures HeaderOrFua(Next(c, pw, l, s))
  {
    if s.Create? {
      CreateEnabled(c, pw, l, s.n, s.auto);
      CreateQueue(c, pw, l, s.n, s.auto);
      hide Enabled, Next, PackAll;
      var st, l2 := PackAll(c.g, c.maxPb, l.latest, l.queue[..s.n]), Next(c, pw, l, s);
      forall i | 0 <= i < |l2.packs| ensures !(l2.packs[i].shouldFlush && l2.packs[i].p.fua) {
        if |l.packs| <= i {
          assert l2.packs[i] == NewPacks(l, st.packs, st.isFlush || s.auto)[i - |l.packs|];
        }
      }
    } else {
      PacksSame(c, pw, l, s);
    }
  }

  lemma PacksSame(c: Setup, pw: nat, l: LogSt, s: LStep)
    requires Enabled(c, pw, l, s) && !s.Create?
    ensures Next(c, pw, l, s).packs == l.packs
  {
    hide LoggedOf, AckedTo, BlocksOf, NextLsid, Acceptable, Room, Max;
  }

  lemma InvLatest(c: Setup, l: LogSt)
    requires Inv(c, l)
    ensures l.latest < U64_SIZE
  {
    hide Position, IssuedOk, HeadersOk, FlushOk, GoodPacks, Chained, AllFit, AllLogged;
  }

  /** Every step keeps the promises. */
  lemma PromisedStep(c: Setup, pw: nat, l: LogSt, s: LStep)
    requires c.g.ring >= MAX_TOTAL_IO_SIZE && Inv(c, l) && Enabled(c, pw, l, s) && Promised(l)
    ensures Promised(Next(c, pw, l, s))
  {
    hide Inv, Next, Enabled, Stamps, FuaDone, FuaKept, FlushKept, HeaderOrFua;
    InvLatest(c, l);
    HeaderOrFuaStep(c, pw, l, s);
    FuaStep(c, pw, l, s);
    StampsStep(c, pw, l, s);
    FuaDoneStep(c, pw, l, s);
    FlushStep(c, pw, l, s);
  }
}
