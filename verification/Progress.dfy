/** The pipeline cannot get stuck: from every state of every run its tasks and the
    devices can bring all that was submitted through to the data device and give the
    ring back. */
module Progress {
  import opened Words
  import opened LogRecord
  import opened Logpack
  import opened WritePack
  import opened Disk
  import opened LogDevice
  import opened RoundTrip
  import opened Recovery
  import opened Submit
  import opened LogSide
  import opened Promises
  import opened DataSide
  import opened Pipeline
  import opened Crash
  import opened Runs
  import opened DataProgress

  // ---------------------------------------------------------------- going on

  ghost predicate Path(c: Setup, ss: seq<St>) {
    ss != [] && forall i | 0 < i < |ss| :: OneStep(c, ss[i - 1], ss[i])
  }

  /** Some steps of the pipeline lead from `s` to `s2`. */
  ghost predicate Leads(c: Setup, s: St, s2: St) {
    exists ss :: Path(c, ss) && ss[0] == s && ss[|ss| - 1] == s2
  }

  lemma LeadsSelf(c: Setup, s: St)
    ensures Leads(c, s, s)
  {
    assert Path(c, [s]);
  }

  lemma LeadsThen(c: Setup, s: St, s1: St, p: PStep)
    requires Leads(c, s, s1) && Can(c, s1, p)
    ensures Leads(c, s, Do(c, s1, p))
  {
    hide Can, Do;
    var ss :| Path(c, ss) && ss[0] == s && ss[|ss| - 1] == s1;
    var s2 := Do(c, s1, p);
    var more := ss + [s2];
    assert Follows(c, s1, s2, p);
    hide Follows;
    forall i | 0 < i < |more| ensures OneStep(c, more[i - 1], more[i]) {
      if i < |ss| {
        assert OneStep(c, ss[i - 1], ss[i]);
      }
    }
    assert Path(c, more);
  }

  /** The invariant, that between two packs completed_lsid is where the wait task is,
      and that a batch under way on the data side has some write. */
  ghost predicate Sane(c: Setup, s: St) {
    PInv(c, s) && (s.l.phase.Between? ==> s.l.completed == s.l.edge) && (s.d.stage.Checking? ==> 0 < s.d.taken)
  }

  lemma EdgeStep(c: Setup, pw: nat, l: LogSt, t: LStep)
    requires (l.phase.Between? ==> l.completed == l.edge) && Enabled(c, pw, l, t)
    ensures var l2 := Next(c, pw, l, t); l2.phase.Between? ==> l2.completed == l2.edge
  {
    hide LoggedOf, BlocksOf, PackAll, AllLogged, Acceptable, Room;
  }

  lemma BatchStep(c: Setup, s: St, p: PStep)
    requires (s.d.stage.Checking? ==> 0 < s.d.taken) && Can(c, s, p)
    ensures Do(c, s, p).d.stage.Checking? ==> 0 < Do(c, s, p).d.taken
  {
    if p.Data? {
      SaneStep(EnvOf(s.l), s.d, p.t);
    }
    hide Enabled, Next, DEnabled, DNext;
  }

  lemma SaneDo(c: Setup, s: St, p: PStep)
    requires c.g.ring >= MAX_TOTAL_IO_SIZE && Sane(c, s) && Can(c, s, p)
    ensures Sane(c, Do(c, s, p))
  {
    PStepInv(c, s, p);
    BatchStep(c, s, p);
    if p.Log? {
      EdgeStep(c, s.prevWritten, s.l, p.s);
    }
    hide PInv, Enabled, Next, DEnabled, DNext;
  }

  lemma StepOn(c: Setup, s0: St, s: St, p: PStep)
    requires c.g.ring >= MAX_TOTAL_IO_SIZE && Leads(c, s0, s) && Sane(c, s) && Can(c, s, p)
    ensures Leads(c, s0, Do(c, s, p)) && Sane(c, Do(c, s, p))
  {
    hide Leads, Sane, Can, Do;
    LeadsThen(c, s0, s, p);
    SaneDo(c, s, p);
  }

  lemma {:induction false} RunSane(c: Setup, base: u64, run: seq<St>, i: nat)
    requires c.g.ring >= MAX_TOTAL_IO_SIZE && Run(c, base, run) && i < |run|
    ensures Sane(c, run[i])
    decreases i
  {
    if i == 0 {
      StartInv(c, base);
      hide PInv;
    } else {
      hide Can, Do, Sane;
      RunSane(c, base, run, i - 1);
      assert OneStep(c, run[i - 1], run[i]);
      var p :| Follows(c, run[i - 1], run[i], p);
      SaneDo(c, run[i - 1], p);
    }
  }

  lemma SaneLog(c: Setup, s: St)
    requires Sane(c, s)
    ensures Inv(c, s.l) && Shape(c, s.l) && Position(c, s.l) && IssuedOk(c, s.l) && s.l.nWait <= s.l.nSub <= |s.l.packs|
  {
    PInvParts(c, s);
    LogParts(c, s);
    hide PInv, Inv, Shape, Position, IssuedOk, DInv, GcOk, SyncOk, RingOk, Promised;
    QueueOk(c, s.l);
  }

  // -------------------------------------------------------- the log device's I/O

  /** All submitted I/O is complete. */
  ghost predicate IoDone(l: LogSt) {
    l.issued <= l.done && forall i | 0 <= i < l.nSub <= |l.packs| && HasHeaderIo(l.packs[i]) :: i in l.hdrDone
  }

  /** The first `n` header I/Os are complete. */
  ghost predicate HeadersTo(l: LogSt, n: nat) {
    l.issued <= l.done && n <= l.nSub <= |l.packs| && forall i | 0 <= i < n && HasHeaderIo(l.packs[i]) :: i in l.hdrDone
  }

  /** Only I/O completed. */
  ghost predicate OnlyIo(s: St, s2: St) {
    s2 == s.(l := s2.l) && s2.l == s.l.(done := s2.l.done, durable := s2.l.durable, hdrDone := s2.l.hdrDone)
  }

  lemma HeaderEnds(c: Setup, s: St, n: nat)
    requires HeadersTo(s.l, n) && n < s.l.nSub && n !in s.l.hdrDone && HasHeaderIo(s.l.packs[n])
    ensures Can(c, s, Log(HeaderDone(n)))
    ensures var s2 := Do(c, s, Log(HeaderDone(n))); OnlyIo(s, s2) && HeadersTo(s2.l, n + 1)
  {
    hide HasHeaderIo;
  }

  lemma HeaderOver(l: LogSt, n: nat)
    requires HeadersTo(l, n) && n < l.nSub && (n in l.hdrDone || !HasHeaderIo(l.packs[n]))
    ensures HeadersTo(l, n + 1)
  {
    hide HasHeaderIo;
  }

  lemma OnlyIoJoin(s: St, s1: St, s2: St)
    requires OnlyIo(s, s1) && OnlyIo(s1, s2)
    ensures OnlyIo(s, s2)
  {
  }

  lemma {:induction false} HeadersEnd(c: Setup, s0: St, s: St, n: nat) returns (s2: St)
    requires c.g.ring >= MAX_TOTAL_IO_SIZE && Leads(c, s0, s) && Sane(c, s) && HeadersTo(s.l, n)
    ensures Leads(c, s0, s2) && Sane(c, s2) && OnlyIo(s, s2) && IoDone(s2.l)
    decreases if n <= s.l.nSub then s.l.nSub - n else 0
  {
    s2 := s;
    if n < s.l.nSub {
      hide Leads, Sane, Can, Do, OnlyIo, HasHeaderIo;
      if n in s.l.hdrDone || !HasHeaderIo(s.l.packs[n]) {
        HeaderOver(s.l, n);
        s2 := HeadersEnd(c, s0, s, n + 1);
      } else {
        HeaderEnds(c, s, n);
        StepOn(c, s0, s, Log(HeaderDone(n)));
        var s1 := Do(c, s, Log(HeaderDone(n)));
        assert s1.l.nSub == s.l.nSub by {
          OnlyIoSame(s, s1);
        }
        s2 := HeadersEnd(c, s0, s1, n + 1);
        OnlyIoJoin(s, s1, s2);
      }
    }
  }

  lemma OnlyIoSame(s: St, s2: St)
    requires OnlyIo(s, s2)
    ensures s2.l.nSub == s.l.nSub && s2.l.packs == s.l.packs
  {
  }

  lemma IoEnds(c: Setup, s0: St, s: St) returns (s2: St)
    requires c.g.ring >= MAX_TOTAL_IO_SIZE && Leads(c, s0, s) && Sane(c, s)
    ensures Leads(c, s0, s2) && Sane(c, s2) && OnlyIo(s, s2) && IoDone(s2.l)
  {
    SaneLog(c, s);
    BlocksEnd(c, s);
    hide Leads, Sane, Can, Do, OnlyIo, Inv, Shape, Position, IssuedOk, HeadersTo;
    StepOn(c, s0, s, Log(BlocksDone(s.l.issued)));
    var s1 := Do(c, s, Log(BlocksDone(s.l.issued)));
    s2 := HeadersEnd(c, s0, s1, 0);
    OnlyIoJoin(s, s1, s2);
  }

  lemma BlocksEnd(c: Setup, s: St)
    requires s.l.nSub <= |s.l.packs|
    ensures Can(c, s, Log(BlocksDone(s.l.issued)))
    ensures var s2 := Do(c, s, Log(BlocksDone(s.l.issued))); OnlyIo(s, s2) && HeadersTo(s2.l, 0)
  {
  }

  // --------------------------------------------------------------- the wait task

  /** The log as it was submitted is the same. */
  ghost predicate SameLog(l: LogSt, l2: LogSt) {
    && l2.base == l.base && l2.queue == l.queue && l2.packs == l.packs && l2.nSub == l.nSub && l2.latest == l.latest
    && l2.writes == l.writes && l2.issued == l.issued
  }

  predicate Waiting(l: LogSt) {
    !l.phase.Between? || l.nWait < l.nSub
  }

  /** What the wait task does next. */
  ghost function WaitStep(c: Setup, l: LogSt): LStep
    requires l.nWait < |l.packs|
  {
    match l.phase
    case Between => BeginPack
    case Ready(j) => if j < |CurLogged(c, l)| then InsertPending else FinishPack
    case Inserted(j) => if j < |CurLogged(c, l)| && CurLogged(c, l)[j].fua then MarkFua else Ack
    case Marked(_) => StartFua
    case Flushing(_, _) => EndFua
    case Flushed(_) => Ack
  }

  function PhaseRank(l: LogSt): nat {
    match l.phase
    case Between => 0
    case Ready(_) => 5
    case Inserted(_) => 4
    case Marked(_) => 3
    case Flushing(_, _) => 2
    case Flushed(_) => 1
  }

  /** Requests of the current pack still to come. */
  ghost function ToCome(c: Setup, l: LogSt): nat {
    if l.phase.Between? || l.nWait >= |l.packs| then 0 else Less(l.phase.j, |CurLogged(c, l)|)
  }

  function BeforePack(l: LogSt): nat { if l.phase.Between? then 1 else 0 }

  /** The measure of WaitEnds goes down. */
  ghost predicate Sooner(c: Setup, l: LogSt, l2: LogSt) {
    || Less(l2.nWait, l2.nSub) < Less(l.nWait, l.nSub)
    || (l2.nWait == l.nWait && l2.nSub == l.nSub && (
        || BeforePack(l2) < BeforePack(l)
        || (BeforePack(l2) == BeforePack(l) && (
            || ToCome(c, l2) < ToCome(c, l)
            || (ToCome(c, l2) == ToCome(c, l) && PhaseRank(l2) < PhaseRank(l))))))
  }

  /** Where the wait task stands in its pack. */
  ghost predicate Placed(c: Setup, l: LogSt) {
    && l.nWait < l.nSub <= |l.packs|
    && (!l.phase.Between? ==> l.phase.j <= |CurLogged(c, l)|)
    && (!l.phase.Between? && !l.phase.Ready? ==> l.phase.j < |CurLogged(c, l)|)
    && (!l.phase.Between? && !l.phase.Ready? && !l.phase.Inserted? ==> CurLogged(c, l)[l.phase.j].fua)
  }

  lemma CurrentPack(c: Setup, l: LogSt)
    requires l.nWait <= l.nSub <= |l.packs| && Position(c, l) && Waiting(l)
    ensures Placed(c, l)
  {
    hide LoggedOf, CountBefore, PartEdge, StartOf;
  }

  /** The blocks of the current request are complete. */
  lemma CurrentDone(c: Setup, l: LogSt, j: nat)
    requires l.nWait < l.nSub <= |l.packs| && IssuedOk(c, l) && IoDone(l) && j < |CurLogged(c, l)|
    ensures Span(CurLogged(c, l)[j].lsid, End(CurLogged(c, l)[j])) <= l.done
  {
    var p, e := l.packs[l.nWait].p, CurLogged(c, l)[j];
    assert BlocksOf(c.g, p) <= l.issued;
    hide IssuedOk;
    forall m | m in Span(e.lsid, End(e)) ensures m in l.done {
      assert InRange(e, m);
      assert HasBlock(c.g, p, m);
      BlocksOfHas(c.g, p, m);
    }
  }

  lemma LoggedBios(g: Geometry, p: Pack)
    ensures |LoggedOf(g, p)| <= |p.bios|
  {
  }

  lemma HeaderOk(l: LogSt)
    requires IoDone(l) && l.nWait < l.nSub <= |l.packs|
    ensures l.nWait in l.hdrDone || !HasHeaderIo(l.packs[l.nWait])
  {
    hide HasHeaderIo;
  }

  lemma WaitCan(c: Setup, pw: nat, l: LogSt)
    requires Placed(c, l) && |CurLogged(c, l)| <= |l.packs[l.nWait].p.bios|
    requires l.nWait in l.hdrDone || !HasHeaderIo(l.packs[l.nWait])
    requires l.phase.Ready? && l.phase.j < |CurLogged(c, l)| ==>
               Span(CurLogged(c, l)[l.phase.j].lsid, End(CurLogged(c, l)[l.phase.j])) <= l.done
    ensures Enabled(c, pw, l, WaitStep(c, l))
  {
    hide LoggedOf, HasHeaderIo;
  }

  lemma WaitEnabled(c: Setup, s: St)
    requires Sane(c, s) && IoDone(s.l) && Waiting(s.l)
    ensures Placed(c, s.l) && Enabled(c, s.prevWritten, s.l, WaitStep(c, s.l)) && Can(c, s, Log(WaitStep(c, s.l)))
  {
    SaneLog(c, s);
    CurrentPack(c, s.l);
    LoggedBios(c.g, s.l.packs[s.l.nWait].p);
    HeaderOk(s.l);
    hide Sane, Inv, Shape, Position, LoggedOf, HasHeaderIo, Enabled;
    if s.l.phase.Ready? && s.l.phase.j < |CurLogged(c, s.l)| {
      CurrentDone(c, s.l, s.l.phase.j);
    }
    hide IssuedOk;
    WaitCan(c, s.prevWritten, s.l);
    hide Placed, WaitStep, IoDone, Waiting;
    LogCan1(c, s, WaitStep(c, s.l));
  }

  lemma LogCan1(c: Setup, s: St, t: LStep)
    requires Inv(c, s.l) && Enabled(c, s.prevWritten, s.l, t)
    ensures Can(c, s, Log(t))
  {
    hide Inv, Enabled;
    if t.InsertPending? {
      InsertHasWrite(c, s.prevWritten, s.l);
    }
  }

  lemma BeginMoves(c: Setup, pw: nat, l: LogSt)
    requires l.nWait < |l.packs| && l.phase.Between? && Enabled(c, pw, l, BeginPack)
    ensures var l2 := Next(c, pw, l, BeginPack); SameLog(l, l2) && Sooner(c, l, l2) && l2.done == l.done && l2.hdrDone == l.hdrDone
  {
    hide LoggedOf, HasHeaderIo, Less, ToCome, PhaseRank;
  }

  lemma FinishMoves(c: Setup, pw: nat, l: LogSt)
    requires l.nWait < l.nSub <= |l.packs| && Enabled(c, pw, l, FinishPack)
    ensures var l2 := Next(c, pw, l, FinishPack); SameLog(l, l2) && Sooner(c, l, l2) && l2.done == l.done && l2.hdrDone == l.hdrDone
  {
    hide LoggedOf, HasHeaderIo, ToCome, PhaseRank, BeforePack;
  }

  lemma AckMoves(c: Setup, pw: nat, l: LogSt)
    requires l.nWait < |l.packs| && Enabled(c, pw, l, Ack)
    ensures var l2 := Next(c, pw, l, Ack); SameLog(l, l2) && Sooner(c, l, l2) && l2.done == l.done && l2.hdrDone == l.hdrDone
  {
    hide LoggedOf, HasHeaderIo, PhaseRank;
  }

  lemma StageMoves(c: Setup, pw: nat, l: LogSt)
    requires Placed(c, l) && Enabled(c, pw, l, WaitStep(c, l))
    requires !WaitStep(c, l).BeginPack? && !WaitStep(c, l).FinishPack? && !WaitStep(c, l).Ack?
    ensures var l2 := Next(c, pw, l, WaitStep(c, l)); SameLog(l, l2) && Sooner(c, l, l2) && l2.done == l.done && l2.hdrDone == l.hdrDone
  {
    hide LoggedOf, HasHeaderIo, Less;
  }

  lemma WaitMoves(c: Setup, pw: nat, l: LogSt)
    requires Placed(c, l) && Enabled(c, pw, l, WaitStep(c, l)) && IoDone(l)
    ensures var l2 := Next(c, pw, l, WaitStep(c, l)); SameLog(l, l2) && Sooner(c, l, l2) && IoDone(l2)
  {
    hide Enabled, Next, Sooner, LoggedOf, HasHeaderIo;
    var t := WaitStep(c, l);
    if t.BeginPack? {
      BeginMoves(c, pw, l);
    } else if t.FinishPack? {
      FinishMoves(c, pw, l);
    } else if t.Ack? {
      AckMoves(c, pw, l);
    } else {
      StageMoves(c, pw, l);
    }
  }

  lemma SameLogJoin(a: LogSt, b: LogSt, d: LogSt)
    requires SameLog(a, b) && SameLog(b, d)
    ensures SameLog(a, d)
  {
  }

  lemma LogDo(c: Setup, s: St, t: LStep)
    requires Can(c, s, Log(t))
    ensures Enabled(c, s.prevWritten, s.l, t) && Do(c, s, Log(t)).l == Next(c, s.prevWritten, s.l, t)
  {
    hide Enabled, Next;
  }

  /** The wait task gets through all submitted packs. */
  lemma {:induction false} WaitEnds(c: Setup, s0: St, s: St) returns (s2: St)
    requires c.g.ring >= MAX_TOTAL_IO_SIZE && Leads(c, s0, s) && Sane(c, s) && IoDone(s.l)
    ensures Leads(c, s0, s2) && Sane(c, s2) && SameLog(s.l, s2.l) && !Waiting(s2.l)
    decreases Less(s.l.nWait, s.l.nSub), BeforePack(s.l), ToCome(c, s.l), PhaseRank(s.l)
  {
    hide Leads, Sane, Can, Do, SameLog, IoDone, Waiting, WaitStep, Less, PhaseRank, ToCome, BeforePack;
    hide Inv, Shape, Position, IssuedOk, Enabled, Next;
    s2 := s;
    if Waiting(s.l) {
      WaitEnabled(c, s);
      SaneLog(c, s);
      var t := WaitStep(c, s.l);
      LogDo(c, s, t);
      WaitMoves(c, s.prevWritten, s.l);
      StepOn(c, s0, s, Log(t));
      var s1 := Do(c, s, Log(t));
      s2 := WaitEnds(c, s0, s1);
      SameLogJoin(s.l, s1.l, s2.l);
    } else {
      SameLogSelf(s.l);
    }
  }

  lemma SameLogSelf(l: LogSt)
    ensures SameLog(l, l)
  {
  }

  // ------------------------------------------------------ permanent_lsid moves

  /** force_flush_ldev and the flushes of headers take permanent_lsid at least to the
      lsid that was complete when they began, and nothing takes it back. */
  lemma FlushAdvances(c: Setup, pw: nat, l: LogSt, t: LStep)
    requires Enabled(c, pw, l, t)
    ensures var l2 := Next(c, pw, l, t);
      && l.permanent <= l2.permanent
      && (t.EndFlush? ==> l.toks[t.k].target <= l2.permanent)
      && (t.EndFua? ==> l.phase.tok.target <= l2.permanent)
      && (t.BeginPack? && l.packs[l.nWait].shouldFlush ==> l.packs[l.nWait].tok.target <= l2.permanent)
  {
    hide LoggedOf, BlocksOf, PackAll, AllLogged, Acceptable, Room;
  }

  /** Only the flush counters and what is durable changed. */
  ghost predicate OnlyFlush(s: St, s2: St) {
    s2 == s.(l := s2.l) && s2.l == s.l.(durable := s2.l.durable, permanent := s2.l.permanent, flush := s2.l.flush, toks := s2.l.toks)
  }

  lemma FlushSteps(c: Setup, s: St)
    ensures Can(c, s, Log(BeginFlush))
    ensures var s1 := Do(c, s, Log(BeginFlush)); var t := EndFlush(|s.l.toks|);
      && Can(c, s1, Log(t)) && var s2 := Do(c, s1, Log(t)); OnlyFlush(s, s2) && s.l.completed <= s2.l.permanent
  {
    var s1 := Do(c, s, Log(BeginFlush));
    FlushAdvances(c, s1.prevWritten, s1.l, EndFlush(|s.l.toks|));
  }

  /** A flush of the log device makes all that is complete permanent. */
  lemma FlushEnds(c: Setup, s0: St, s: St) returns (s2: St)
    requires c.g.ring >= MAX_TOTAL_IO_SIZE && Leads(c, s0, s) && Sane(c, s)
    ensures Leads(c, s0, s2) && Sane(c, s2) && OnlyFlush(s, s2) && s.l.completed <= s2.l.permanent
  {
    FlushSteps(c, s);
    hide Leads, Sane, Can, Do, OnlyFlush;
    StepOn(c, s0, s, Log(BeginFlush));
    var s1 := Do(c, s, Log(BeginFlush));
    StepOn(c, s0, s1, Log(EndFlush(|s.l.toks|)));
    s2 := Do(c, s1, Log(EndFlush(|s.l.toks|)));
  }

  // ------------------------------------------------------------ the data device

  /** The wait task is through, and the log of its packs is permanent. */
  ghost predicate LogOver(l: LogSt) {
    l.phase.Between? && l.nWait == l.nSub <= |l.packs| && StartOf(l, l.nSub) <= l.permanent
  }

  lemma PlaceBetween(c: Setup, l: LogSt)
    requires l.nWait <= |l.packs| && Position(c, l) && l.phase.Between?
    ensures l.edge == StartOf(l, l.nWait) && l.acked == CountBefore(c, l, l.nWait)
  {
    hide CountBefore, StartOf;
  }

  lemma SaneData(c: Setup, s: St)
    requires Sane(c, s)
    ensures DSane(EnvOf(s.l), s.d)
  {
    hide PInv, DInv;
    PInvParts(c, s);
  }

  /** What is acknowledged is in packs that are through, and so it is permanent. */
  lemma AckedPermanent(c: Setup, l: LogSt)
    requires Inv(c, l) && Shape(c, l) && l.nWait <= |l.packs| && Position(c, l) && LogOver(l)
    ensures l.acked == CountBefore(c, l, l.nSub) <= |l.writes|
    ensures forall k | 0 <= k < l.acked :: End(l.writes[k]) <= l.permanent
  {
    hide Inv, Shape, CountBefore, StartOf;
    PlaceBetween(c, l);
    InvAcked(c, l);
    hide Position;
    forall k | 0 <= k < l.acked ensures End(l.writes[k]) <= l.permanent {
      WritesBefore(c, l, l.nWait, k);
    }
  }

  lemma OverReady(c: Setup, s: St)
    requires Sane(c, s) && LogOver(s.l)
    ensures LogReady(EnvOf(s.l)) && DSane(EnvOf(s.l), s.d) && s.l.acked == CountBefore(c, s.l, s.l.nSub)
  {
    hide Sane, Inv, Shape, Position, IssuedOk, CountBefore, LogOver, DSane;
    SaneLog(c, s);
    SaneData(c, s);
    AckedPermanent(c, s.l);
    EndsAreOrdered(c, s.l);
  }

  lemma DataStepOn(c: Setup, s0: St, s: St, t: DStep)
    requires c.g.ring >= MAX_TOTAL_IO_SIZE && Leads(c, s0, s) && Sane(c, s) && DEnabled(EnvOf(s.l), s.d, t)
    ensures Leads(c, s0, s.(d := DNext(EnvOf(s.l), s.d, t))) && Sane(c, s.(d := DNext(EnvOf(s.l), s.d, t)))
  {
    hide Leads, Sane, DEnabled, DNext;
    StepOn(c, s0, s, Data(t));
  }

  lemma {:induction false} DataLifts(c: Setup, s0: St, s: St, ds: seq<DataSt>, n: nat)
    requires c.g.ring >= MAX_TOTAL_IO_SIZE && Leads(c, s0, s) && Sane(c, s) && n < |ds| && DPath(EnvOf(s.l), ds) && ds[0] == s.d
    ensures Leads(c, s0, s.(d := ds[n])) && Sane(c, s.(d := ds[n]))
    decreases n
  {
    hide Leads, Sane, DEnabled, DNext;
    if n > 0 {
      DataLifts(c, s0, s, ds, n - 1);
      var s1 := s.(d := ds[n - 1]);
      assert DOne(EnvOf(s.l), ds[n - 1], ds[n]);
      var t :| DFollows(EnvOf(s.l), ds[n - 1], ds[n], t);
      DataStepOn(c, s0, s1, t);
    }
  }

  /** All acknowledged writes go to the data device. */
  lemma DataEnds(c: Setup, s0: St, s: St) returns (s2: St)
    requires c.g.ring >= MAX_TOTAL_IO_SIZE && Leads(c, s0, s) && Sane(c, s) && LogOver(s.l)
    ensures Leads(c, s0, s2) && Sane(c, s2) && s2 == s.(d := s2.d)
    ensures s2.d.gone == s2.l.acked == CountBefore(c, s2.l, s2.l.nSub)
  {
    hide Leads, Sane, DSane, LogReady, CountBefore, LogOver;
    OverReady(c, s);
    DLeadsSelf(EnvOf(s.l), s.d);
    var d2 := DataDrains(EnvOf(s.l), s.d, s.d);
    var ds :| DPath(EnvOf(s.l), ds) && ds[0] == s.d && ds[|ds| - 1] == d2;
    hide DPath;
    DataLifts(c, s0, s, ds, |ds| - 1);
    s2 := s.(d := d2);
  }

  // ------------------------------------------------------- giving back the ring

  lemma OnDiskIs(c: Setup, s: St)
    requires GcOk(c, s) && s.l.nWait <= |s.l.packs| && s.nGc <= s.l.nWait && SyncOk(c, s)
    requires s.sync.Syncing? && s.sync.stage.OnDisk?
    ensures s.sync.w == s.super
  {
    hide HitBy, CountBefore;
  }

  lemma SyncTook(c: Setup, s: St)
    requires s.sync.Syncing? && s.sync.stage.OnDisk? && PInv(c, s)
    ensures s.sync.w == s.super
  {
    hide PInv, Inv, Shape, Promised, DInv, RingOk, SyncOk;
    PInvParts(c, s);
    GcPlaceIn(c, s);
    hide GcOk;
    OnDiskIs(c, s);
  }

  /** In every run walb_sync_super_block ends with prev_written at the written_lsid
      that is in the superblock on disk. */
  lemma EveryRunSyncs(c: Setup, base: u64, run: seq<St>, i: nat)
    requires c.g.ring >= MAX_TOTAL_IO_SIZE && Run(c, base, run) && i < |run| && Can(c, run[i], SyncEnd)
    ensures Do(c, run[i], SyncEnd).prevWritten == Do(c, run[i], SyncEnd).super == run[i].super
  {
    hide PInv, Run;
    RunInv(c, base, run, i);
    SyncTook(c, run[i]);
  }

  lemma GcPlaceIn(c: Setup, s: St)
    requires GcOk(c, s)
    ensures s.nGc <= s.l.nWait <= |s.l.packs|
  {
    hide HitBy, CountBefore;
  }

  /** The next step of the sync under way. */
  function SyncStep(s: St): PStep {
    match s.sync
    case NoSync => SyncSnap
    case Syncing(_, _, stage) =>
      match stage
      case Snapped => SyncIssue
      case Issued(_) => SyncFlushed
      case Flushed(_) => SuperWrite
      case OnDisk => SyncEnd
  }

  function SyncLeft(s: St): nat {
    match s.sync
    case NoSync => 0
    case Syncing(_, _, stage) =>
      match stage
      case Snapped => 4
      case Issued(_) => 3
      case Flushed(_) => 2
      case OnDisk => 1
  }

  /** Only the sync went on; what it took is what it will store. */
  ghost predicate OnlySync(s: St, s2: St) {
    s2 == s.(sync := s2.sync, nSuper := s2.nSuper, super := s2.super, prevWritten := s2.prevWritten, flushed := s2.flushed)
  }

  lemma SyncMoves(c: Setup, s: St)
    requires s.sync.Syncing?
    ensures Can(c, s, SyncStep(s)) && var s2 := Do(c, s, SyncStep(s));
      && OnlySync(s, s2) && SyncLeft(s2) < SyncLeft(s)
      && (s2.sync.Syncing? ==> s2.sync.w == s.sync.w) && (s2.sync.NoSync? ==> s2.prevWritten == s.sync.w)
  {
  }

  lemma OnlySyncJoin(a: St, b: St, d: St)
    requires OnlySync(a, b) && OnlySync(b, d)
    ensures OnlySync(a, d)
  {
  }

  lemma OnlySyncSelf(s: St)
    ensures OnlySync(s, s)
  {
  }

  lemma {:induction false} SyncEnds(c: Setup, s0: St, s: St) returns (s2: St)
    requires c.g.ring >= MAX_TOTAL_IO_SIZE && Leads(c, s0, s) && Sane(c, s)
    ensures Leads(c, s0, s2) && Sane(c, s2) && OnlySync(s, s2) && s2.sync.NoSync?
    ensures if s.sync.Syncing? then s2.prevWritten == s.sync.w else s2 == s
    decreases SyncLeft(s)
  {
    hide Leads, Sane, Can, Do, OnlySync, SyncStep, SyncLeft;
    s2 := s;
    if s.sync.Syncing? {
      SyncMoves(c, s);
      StepOn(c, s0, s, SyncStep(s));
      var s1 := Do(c, s, SyncStep(s));
      s2 := SyncEnds(c, s0, s1);
      OnlySyncJoin(s, s1, s2);
    } else {
      OnlySyncSelf(s);
    }
  }

  lemma SnapMoves(c: Setup, s: St)
    requires s.sync.NoSync?
    ensures Can(c, s, SyncSnap) && var s2 := Do(c, s, SyncSnap); OnlySync(s, s2) && s2.sync.Syncing? && s2.sync.w == s.written
  {
  }

  /** A whole sync: prev_written becomes written. */
  lemma SyncsOnce(c: Setup, s0: St, s: St) returns (s2: St)
    requires c.g.ring >= MAX_TOTAL_IO_SIZE && Leads(c, s0, s) && Sane(c, s)
    ensures Leads(c, s0, s2) && Sane(c, s2) && OnlySync(s, s2) && s2.prevWritten == s.written
  {
    hide Leads, Sane, Can, Do, OnlySync;
    var s1 := SyncEnds(c, s0, s);
    assert s1.written == s.written by {
      OnlySyncSame(s, s1);
    }
    SnapMoves(c, s1);
    StepOn(c, s0, s1, SyncSnap);
    var s3 := Do(c, s1, SyncSnap);
    s2 := SyncEnds(c, s0, s3);
    OnlySyncJoin(s, s1, s3);
    OnlySyncJoin(s, s3, s2);
  }

  lemma OnlySyncSame(s: St, s2: St)
    requires OnlySync(s, s2)
    ensures s2.l == s.l && s2.d == s.d && s2.nGc == s.nGc && s2.written == s.written
  {
  }

  lemma GcCan(c: Setup, s: St, n: nat)
    requires 0 < n && s.nGc + n == s.l.nWait == s.l.nSub <= |s.l.packs| && s.d.gone == CountBefore(c, s.l, s.l.nSub)
    ensures Can(c, s, Gc(n))
  {
    hide CountBefore;
  }

  /** Garbage collection of all packs that are through. */
  lemma GcEnds(c: Setup, s0: St, s: St) returns (s2: St)
    requires c.g.ring >= MAX_TOTAL_IO_SIZE && Leads(c, s0, s) && Sane(c, s)
    requires s.l.nWait == s.l.nSub <= |s.l.packs| && s.d.gone == CountBefore(c, s.l, s.l.nSub)
    ensures Leads(c, s0, s2) && Sane(c, s2) && s2.l == s.l && s2.d == s.d && s2.nGc == s.l.nSub
    ensures s2.written == StartOf(s.l, s.l.nSub)
  {
    hide Leads, Sane, Can, Do, CountBefore, StartOf;
    GcPlace(c, s);
    s2 := s;
    if s.nGc < s.l.nSub {
      var n := s.l.nSub - s.nGc;
      GcCan(c, s, n);
      GcDo(c, s, n);
      StepOn(c, s0, s, Gc(n));
      s2 := Do(c, s, Gc(n));
    }
    GcPlace(c, s2);
  }

  lemma GcDo(c: Setup, s: St, n: nat)
    requires Can(c, s, Gc(n))
    ensures var s2 := Do(c, s, Gc(n)); s2.l == s.l && s2.d == s.d && s2.nGc == s.nGc + n
  {
  }

  lemma GcPlace(c: Setup, s: St)
    requires Sane(c, s)
    ensures s.nGc <= s.l.nWait && s.written == StartOf(s.l, s.nGc) && s.prevWritten <= s.super
    ensures s.nSuper <= s.nGc && s.super == StartOf(s.l, s.nSuper)
  {
    PInvParts(c, s);
    hide PInv, Inv, Shape, Promised, DInv, SyncOk, RingOk, HitBy, CountBefore, StartOf;
  }

  // --------------------------------------------------------- all that is submitted

  /** All submitted packs are through everything. */
  ghost predicate Through(c: Setup, s: St) {
    && LogOver(s.l) && s.d.gone == s.l.acked == CountBefore(c, s.l, s.l.nSub)
    && s.prevWritten == s.written == StartOf(s.l, s.l.nSub)
  }

  lemma OnlyFlushSame(s: St, s2: St)
    requires OnlyFlush(s, s2)
    ensures SameLog(s.l, s2.l) && s2.l.phase == s.l.phase && s2.l.nWait == s.l.nWait
  {
  }

  lemma NowOver(c: Setup, s: St, s2: St)
    requires Sane(c, s) && !Waiting(s.l) && OnlyFlush(s, s2) && s.l.completed <= s2.l.permanent
    ensures LogOver(s2.l) && SameLog(s.l, s2.l)
  {
    SaneLog(c, s);
    PlaceBetween(c, s.l);
    hide Inv, Shape, Position, IssuedOk, PInv;
  }

  lemma IoSame(s: St, s2: St)
    requires OnlyIo(s, s2)
    ensures SameLog(s.l, s2.l)
  {
  }

  /** The tasks bring all submitted packs through, and the ring is given back. */
  lemma SubmittedEnds(c: Setup, s0: St, s: St) returns (s2: St)
    requires c.g.ring >= MAX_TOTAL_IO_SIZE && Leads(c, s0, s) && Sane(c, s)
    ensures Leads(c, s0, s2) && Sane(c, s2) && SameLog(s.l, s2.l) && Through(c, s2)
  {
    hide Leads, Sane, OnlyIo, IoDone, SameLog, Waiting, OnlyFlush, LogOver, OnlySync, CountBefore, StartOf;
    var s1 := IoEnds(c, s0, s);
    IoSame(s, s1);
    var s3 := WaitEnds(c, s0, s1);
    SameLogJoin(s.l, s1.l, s3.l);
    var s4 := FlushEnds(c, s0, s3);
    NowOver(c, s3, s4);
    SameLogJoin(s.l, s3.l, s4.l);
    var s5 := DataEnds(c, s0, s4);
    OverWait(s5.l);
    var s6 := GcEnds(c, s0, s5);
    s2 := SyncsOnce(c, s0, s6);
    OnlySyncSame(s6, s2);
  }

  lemma OverWait(l: LogSt)
    requires LogOver(l)
    ensures l.nWait == l.nSub <= |l.packs|
  {
  }

  // ------------------------------------------------------------- every pack

  /** What is created but not yet submitted can get into the ring once everything
      before it has left. */
  ghost predicate FitsRing(c: Setup, l: LogSt) {
    l.nSub == |l.packs| || l.latest <= StartOf(l, l.nSub) + c.g.ring
  }

  /** Everything that was packed is through, and nothing of the ring is in use. */
  ghost predicate AllThrough(c: Setup, s: St) {
    && s.l.nSub == |s.l.packs| && s.l.phase.Between? && s.l.nWait == s.l.nSub
    && s.d.gone == s.l.acked == |s.l.writes| && s.d.pending == {}
    && s.l.latest <= s.l.permanent && s.prevWritten == s.written == s.l.latest
  }

  /** The requests and packs there were. */
  ghost predicate SamePacks(l: LogSt, l2: LogSt) {
    l2.queue == l.queue && l2.packs == l.packs && l2.latest == l.latest && l2.writes == l.writes
  }

  lemma SubmitCan1(c: Setup, s: St)
    requires Through(c, s) && FitsRing(c, s.l) && s.l.nSub < |s.l.packs|
    ensures Can(c, s, Log(SubmitNext))
  {
    hide CountBefore, StartOf, LogOver;
  }

  lemma SubmitDo(c: Setup, s: St)
    requires Can(c, s, Log(SubmitNext))
    ensures var l2 := Do(c, s, Log(SubmitNext)).l; l2.nSub == s.l.nSub + 1 && SamePacks(s.l, l2)
  {
    hide BlocksOf;
  }

  lemma FitsNext(c: Setup, l: LogSt, l2: LogSt)
    requires Shape(c, l) && FitsRing(c, l) && l.nSub < |l.packs| && l2.packs == l.packs && l2.latest == l.latest && l2.nSub == l.nSub + 1
    ensures FitsRing(c, l2)
  {
    StartMono(c, l, l.nSub, l.nSub + 1);
    hide Shape;
  }

  lemma NowAllThrough(c: Setup, s: St)
    requires Sane(c, s) && Through(c, s) && s.l.nSub == |s.l.packs|
    ensures AllThrough(c, s)
  {
    hide Sane, PInv, Inv, Shape, Position, IssuedOk;
    SaneLog(c, s);
    AllCounted(c, s.l);
    SaneGone(c, s);
  }

  lemma AllCounted(c: Setup, l: LogSt)
    requires Shape(c, l)
    ensures CountBefore(c, l, |l.packs|) == |l.writes|
  {
    ShapeFacts(c, l);
    hide Shape, AllLogged, GoodPacks, Chained, AllFit;
    assert Packs(l)[..|l.packs|] == Packs(l);
  }

  lemma SaneGone(c: Setup, s: St)
    requires Sane(c, s) && s.d.gone == |s.l.writes|
    ensures s.d.pending == {}
  {
    hide PInv, DInv, Inv, Shape, Promised, GcOk, SyncOk, RingOk;
    PInvParts(c, s);
    NonePending(EnvOf(s.l), s.d);
  }

  lemma NonePending(e: Env, d: DataSt)
    requires DInv(e, d) && d.gone == |e.ls|
    ensures d.pending == {}
  {
    hide MapOk, Flight, HitsOk, Sending, Once, CoveredBy;
    assert forall k | k in d.pending :: d.gone <= k < e.inserted <= |e.ls|;
  }

  lemma FitsSame(c: Setup, l: LogSt, l2: LogSt)
    requires FitsRing(c, l) && SameLog(l, l2)
    ensures FitsRing(c, l2) && SamePacks(l, l2) && l2.nSub == l.nSub && |l2.packs| == |l.packs|
  {
  }

  lemma SamePacksJoin(a: LogSt, b: LogSt, d: LogSt)
    requires SamePacks(a, b) && SamePacks(b, d)
    ensures SamePacks(a, d)
  {
  }

  /** Pack after pack is submitted and brought through. */
  lemma {:induction false} PacksEnd(c: Setup, s0: St, s: St) returns (s2: St)
    requires c.g.ring >= MAX_TOTAL_IO_SIZE && Leads(c, s0, s) && Sane(c, s) && FitsRing(c, s.l)
    ensures Leads(c, s0, s2) && Sane(c, s2) && SamePacks(s.l, s2.l) && AllThrough(c, s2)
    decreases Less(s.l.nSub, |s.l.packs|)
  {
    hide Leads, Sane, Can, Do, SameLog, SamePacks, Through, AllThrough, FitsRing;
    s2 := SubmittedEnds(c, s0, s);
    FitsSame(c, s.l, s2.l);
    SaneBounds(c, s2);
    if s2.l.nSub < |s2.l.packs| {
      SubmitCan1(c, s2);
      SubmitDo(c, s2);
      SaneShape(c, s2);
      StepOn(c, s0, s2, Log(SubmitNext));
      var s3 := Do(c, s2, Log(SubmitNext));
      SamePacksSame(s2.l, s3.l);
      FitsNext(c, s2.l, s3.l);
      SamePacksJoin(s.l, s2.l, s3.l);
      s2 := PacksEnd(c, s0, s3);
      SamePacksJoin(s.l, s3.l, s2.l);
    } else {
      NowAllThrough(c, s2);
    }
  }

  lemma SamePacksSame(l: LogSt, l2: LogSt)
    requires SamePacks(l, l2)
    ensures l2.packs == l.packs && l2.latest == l.latest
  {
  }

  lemma SaneShape(c: Setup, s: St)
    requires Sane(c, s)
    ensures Shape(c, s.l)
  {
    hide Sane, Inv, Shape, Position, IssuedOk;
    SaneLog(c, s);
  }

  lemma SaneBounds(c: Setup, s: St)
    requires Sane(c, s)
    ensures s.l.nSub <= |s.l.packs|
  {
    hide Sane, Inv, Shape, Position, IssuedOk;
    SaneLog(c, s);
  }

  // ------------------------------------------------------------------ stuck

  /** The batch that is being submitted is longer than the ring. */
  ghost predicate TooLong(c: Setup, l: LogSt, n: nat, latest: nat) {
    l.nSub == n < |l.packs| && l.latest == latest && StartOf(l, n) + c.g.ring < latest
  }

  lemma NotTooLong(c: Setup, l: LogSt)
    requires l.nSub <= |l.packs|
    ensures FitsRing(c, l) <==> !TooLong(c, l, l.nSub, l.latest)
  {
    hide StartOf;
  }

  /** prev_written never passes the packs that are not submitted. */
  lemma PrevBehind(c: Setup, s: St)
    requires PInv(c, s)
    ensures s.l.nSub <= |s.l.packs| && s.prevWritten <= StartOf(s.l, s.l.nSub) <= s.l.latest
  {
    hide PInv, Inv, Shape, Promised, DInv, SyncOk, RingOk, StartOf;
    PInvParts(c, s);
    QueueOk(c, s.l);
    GcBehind(c, s);
    StartMono(c, s.l, s.nSuper, s.l.nSub);
    StartMono(c, s.l, s.l.nSub, |s.l.packs|);
  }

  lemma GcBehind(c: Setup, s: St)
    requires GcOk(c, s)
    ensures s.nSuper <= s.nGc <= s.l.nWait <= |s.l.packs| && s.prevWritten <= s.super == StartOf(s.l, s.nSuper)
  {
    hide HitBy, CountBefore, StartOf;
  }

  lemma StuckLog(c: Setup, pw: nat, l: LogSt, t: LStep, n: nat, latest: nat)
    requires TooLong(c, l, n, latest) && pw <= StartOf(l, n) && Enabled(c, pw, l, t)
    ensures TooLong(c, Next(c, pw, l, t), n, latest)
  {
    hide LoggedOf, BlocksOf, PackAll, AllLogged, Acceptable, Room, HasHeaderIo;
  }

  lemma StuckStep(c: Setup, s: St, p: PStep, n: nat, latest: nat)
    requires TooLong(c, s.l, n, latest) && s.prevWritten <= StartOf(s.l, n) && Can(c, s, p)
    ensures TooLong(c, Do(c, s, p).l, n, latest)
  {
    if p.Log? {
      StuckLog(c, s.prevWritten, s.l, p.s, n, latest);
    }
    hide Enabled, Next, DEnabled, DNext, TooLong;
  }

  lemma {:induction false} StaysStuck(c: Setup, base: u64, run: seq<St>, i: nat, j: nat, n: nat, latest: nat)
    requires c.g.ring >= MAX_TOTAL_IO_SIZE && Run(c, base, run) && i <= j < |run| && TooLong(c, run[i].l, n, latest)
    ensures TooLong(c, run[j].l, n, latest)
    decreases j
  {
    hide Can, Do, PInv, TooLong, StartOf;
    if i < j {
      StaysStuck(c, base, run, i, j - 1, n, latest);
      RunInv(c, base, run, j - 1);
      PrevBehind(c, run[j - 1]);
      StuckAt(c, run[j - 1].l, n, latest);
      assert OneStep(c, run[j - 1], run[j]);
      var p :| Follows(c, run[j - 1], run[j], p);
      StuckStep(c, run[j - 1], p, n, latest);
    }
  }

  lemma StuckAt(c: Setup, l: LogSt, n: nat, latest: nat)
    requires TooLong(c, l, n, latest)
    ensures l.nSub == n
  {
    hide StartOf;
  }

  // -------------------------------------------------------------- every run

  /** `more` is a continuation of the run. */
  ghost predicate Continues(c: Setup, base: u64, run: seq<St>, more: seq<St>) {
    0 < |run| <= |more| && Run(c, base, more) && more[..|run|] == run
  }

  lemma LeadsOn(c: Setup, base: u64, run: seq<St>, s2: St) returns (more: seq<St>)
    requires run != [] && Run(c, base, run) && Leads(c, run[|run| - 1], s2)
    ensures Continues(c, base, run, more) && more[|more| - 1] == s2
  {
    hide OneStep;
    var n := |run| - 1;
    var ss :| Path(c, ss) && ss[0] == run[n] && ss[|ss| - 1] == s2;
    more := run + ss[1..];
    forall i | 0 < i < |more| ensures OneStep(c, more[i - 1], more[i]) {
      if i > n {
        assert more[i] == ss[i - n] && more[i - 1] == ss[i - n - 1];
        assert OneStep(c, ss[i - n - 1], ss[i - n]);
      } else {
        assert OneStep(c, run[i - 1], run[i]);
      }
    }
  }

  /** Everything that was submitted is acknowledged, on the data device and permanent in
      the log, and prev_written and written are at its end. */
  ghost predicate Drained(c: Setup, s: St) {
    && s.l.nWait == s.l.nSub <= |s.l.packs| && s.d.gone == s.l.acked == CountBefore(c, s.l, s.l.nSub) <= |s.l.writes|
    && (forall k | 0 <= k < s.l.acked :: End(s.l.writes[k]) <= s.l.permanent)
    && s.prevWritten == s.written == StartOf(s.l, s.l.nSub)
  }

  lemma ThroughDrained(c: Setup, s: St)
    requires Sane(c, s) && Through(c, s)
    ensures Drained(c, s)
  {
    SaneLog(c, s);
    hide Sane, PInv, Inv, Shape, Position, IssuedOk, CountBefore, StartOf;
    AckedPermanent(c, s.l);
  }

  /** From the last state of every run, without exception, some continuation drains
      what was submitted: the writes are acknowledged, go to the data device, are
      permanent in the log, and their part of the ring is given back. */
  lemma EveryRunDrains(c: Setup, base: u64, run: seq<St>) returns (more: seq<St>)
    requires c.g.ring >= MAX_TOTAL_IO_SIZE && run != [] && Run(c, base, run)
    ensures Continues(c, base, run, more) && Drained(c, more[|more| - 1])
    ensures SameLog(run[|run| - 1].l, more[|more| - 1].l)
  {
    hide Run, Sane, Leads, Through, SameLog, Continues, Drained;
    var s := run[|run| - 1];
    RunSane(c, base, run, |run| - 1);
    LeadsSelf(c, s);
    var s2 := SubmittedEnds(c, s, s);
    ThroughDrained(c, s2);
    more := LeadsOn(c, base, run, s2);
  }

  /** The run can go on so that everything packed is through: all its writes are on
      their way out of the log, permanent_lsid is at the end of it, and prev_written
      and written are too, so the whole ring is free again. */
  lemma RunEnds(c: Setup, base: u64, run: seq<St>) returns (more: seq<St>)
    requires c.g.ring >= MAX_TOTAL_IO_SIZE && run != [] && Run(c, base, run) && FitsRing(c, run[|run| - 1].l)
    ensures Continues(c, base, run, more) && AllThrough(c, more[|more| - 1])
    ensures SamePacks(run[|run| - 1].l, more[|more| - 1].l)
  {
    hide Run, Sane, Leads, FitsRing, AllThrough, SamePacks, Continues;
    var s := run[|run| - 1];
    RunSane(c, base, run, |run| - 1);
    LeadsSelf(c, s);
    var s2 := PacksEnd(c, s, s);
    more := LeadsOn(c, base, run, s2);
  }

  ghost predicate EndsWell(c: Setup, base: u64, run: seq<St>, more: seq<St>) {
    Continues(c, base, run, more) && AllThrough(c, more[|more| - 1])
  }

  /** Progress. From the last state of any run some continuation brings everything
      through and frees the ring, if and only if what is created but not submitted
      yet is no longer than the ring. */
  lemma EveryRunCanEnd(c: Setup, base: u64, run: seq<St>)
    requires c.g.ring >= MAX_TOTAL_IO_SIZE && run != [] && Run(c, base, run)
    ensures (exists more :: EndsWell(c, base, run, more)) <==> FitsRing(c, run[|run| - 1].l)
  {
    hide Run, FitsRing, AllThrough, SamePacks, Continues, PInv;
    var l := run[|run| - 1].l;
    if FitsRing(c, l) {
      var more := RunEnds(c, base, run);
      assert EndsWell(c, base, run, more);
    } else {
      RunInv(c, base, run, |run| - 1);
      PrevBehind(c, run[|run| - 1]);
      NotTooLong(c, l);
      forall more ensures !EndsWell(c, base, run, more) {
        if Continues(c, base, run, more) {
          NeverThrough(c, base, run, more);
        }
      }
    }
  }

  lemma NeverThrough(c: Setup, base: u64, run: seq<St>, more: seq<St>)
    requires c.g.ring >= MAX_TOTAL_IO_SIZE && Continues(c, base, run, more)
    requires TooLong(c, run[|run| - 1].l, run[|run| - 1].l.nSub, run[|run| - 1].l.latest)
    ensures !AllThrough(c, more[|more| - 1])
  {
    hide Run, StartOf;
    var i, j := |run| - 1, |more| - 1;
    assert more[i] == more[..|run|][i];
    StaysStuck(c, base, more, i, j, more[i].l.nSub, more[i].l.latest);
  }
}
