/** Exactly when a flush request keeps its promise: the guard of
    pack_header_should_flush in module/io.c decides it. */
module FlushExact {
  import opened Words
  import opened LogRecord
  import opened Logpack
  import opened WritePack
  import opened Disk
  import opened LogDevice
  import opened RoundTrip
  import opened Recovery
  import opened Submit
  import opened LogSide
  import opened Promises

  ghost predicate IsStep(c: Setup, pw: nat, l: LogSt, l2: LogSt, s: LStep) {
    Enabled(c, pw, l, s) && l2 == Next(c, pw, l, s)
  }

  ghost predicate SomeStep(c: Setup, pw: nat, l: LogSt, l2: LogSt) {
    exists s :: IsStep(c, pw, l, l2, s)
  }

  ghost predicate LogRun(c: Setup, pw: nat, run: seq<LogSt>) {
    run != [] && forall i | 0 < i < |run| :: SomeStep(c, pw, run[i - 1], run[i])
  }

  /** Some continuation of the log side takes `l` to `l2`. */
  ghost predicate Leads(c: Setup, pw: nat, l: LogSt, l2: LogSt) {
    exists run :: LogRun(c, pw, run) && run[0] == l && run[|run| - 1] == l2
  }

  lemma LeadsHere(c: Setup, pw: nat, l: LogSt)
    ensures Leads(c, pw, l, l)
  {
    var run := [l];
    assert LogRun(c, pw, run) && run[0] == l && run[|run| - 1] == l;
  }

  lemma LeadsOn(c: Setup, pw: nat, l: LogSt, m: LogSt, s: LStep)
    requires Leads(c, pw, l, m) && Enabled(c, pw, m, s)
    ensures Leads(c, pw, l, Next(c, pw, m, s))
  {
    hide Enabled, Next;
    var run :| LogRun(c, pw, run) && run[0] == l && run[|run| - 1] == m;
    var more := run + [Next(c, pw, m, s)];
    assert IsStep(c, pw, m, Next(c, pw, m, s), s);
    forall i | 0 < i < |more| ensures SomeStep(c, pw, more[i - 1], more[i]) {
      if i < |run| {
        assert SomeStep(c, pw, run[i - 1], run[i]);
      }
    }
    assert LogRun(c, pw, more) && more[0] == l && more[|more| - 1] == Next(c, pw, m, s);
  }

  /** A continuation keeps the invariants and all packs there are. */
  lemma {:induction false} RunKeeps(c: Setup, pw: nat, run: seq<LogSt>, n: nat, i: nat)
    requires c.g.ring >= MAX_TOTAL_IO_SIZE && LogRun(c, pw, run) && n < |run|
    requires Inv(c, run[0]) && Promised(run[0]) && i < |run[0].packs|
    ensures Inv(c, run[n]) && Promised(run[n]) && i < |run[n].packs| && run[n].packs[i] == run[0].packs[i]
    decreases n
  {
    hide Inv, Promised, Enabled, Next;
    if n > 0 {
      RunKeeps(c, pw, run, n - 1, i);
      assert SomeStep(c, pw, run[n - 1], run[n]);
      var s :| IsStep(c, pw, run[n - 1], run[n], s);
      StepInv(c, pw, run[n - 1], s);
      PromisedStep(c, pw, run[n - 1], s);
      StepGrows(c, pw, run[n - 1], s);
    }
  }

  /** The wait task is about to begin with pack `nWait`, which starts with a plain
      flush, and something acknowledged before that flush is not on the medium. */
  ghost predicate AtFlush(l: LogSt) {
    && l.phase.Between? && l.nWait < l.nSub <= |l.packs|
    && l.packs[l.nWait].p.bios != [] && l.packs[l.nWait].p.bios[0].flush && !l.packs[l.nWait].p.bios[0].fua
    && !Below(l, l.durable, l.packs[l.nWait].p.bios[0].stamp)
  }

  function TheFlush(l: LogSt): AckedFlush
    requires l.nWait < |l.packs| && l.packs[l.nWait].p.bios != []
  {
    AckedFlush(l.packs[l.nWait].p.bios[0].stamp, l.nWait)
  }

  /** A continuation acknowledges the flush while that is still so. */
  ghost predicate Broken(c: Setup, pw: nat, l: LogSt, l2: LogSt)
    requires l.nWait < |l.packs| && l.packs[l.nWait].p.bios != []
  {
    Leads(c, pw, l, l2) && TheFlush(l) in l2.flushes && !OnMedium(l2, TheFlush(l).stamp)
  }

  // ------------------------------------------------------- a guarded flush holds

  lemma GuardedHolds(c: Setup, pw: nat, l: LogSt, l2: LogSt)
    requires c.g.ring >= MAX_TOTAL_IO_SIZE && AtFlush(l) && Inv(c, l) && Promised(l)
    requires !Unguarded(l.packs[l.nWait], l.nWait) && Leads(c, pw, l, l2) && TheFlush(l) in l2.flushes
    ensures OnMedium(l2, TheFlush(l).stamp)
  {
    hide Inv, Stamps, FuaDone, FuaKept, HeaderOrFua, OnMedium, Unguarded, SomeStep, Below;
    var run :| LogRun(c, pw, run) && run[0] == l && run[|run| - 1] == l2;
    RunKeeps(c, pw, run, |run| - 1, l.nWait);
    var n :| 0 <= n < |l2.flushes| && l2.flushes[n] == TheFlush(l);
    assert KeepsFlush(l2, l2.flushes[n]);
  }

  // --------------------------------------------------- an unguarded one can fail

  /** A pack that defeats the flush has records and does not flush with its header. */
  lemma AboutUnguarded(c: Setup, l: LogSt)
    requires l.nWait < |l.packs| && Unguarded(l.packs[l.nWait], l.nWait) && Inv(c, l) && HeaderOrFua(l)
    ensures l.packs[l.nWait].p.header.records != [] && !l.packs[l.nWait].shouldFlush
    ensures |LoggedOf(c.g, l.packs[l.nWait].p)| == |l.packs[l.nWait].p.bios|
    ensures PackOk(c.g, l.packs[l.nWait].p)
  {
    ShapePack(c, l, l.nWait);
    hide Inv;
    var p := l.packs[l.nWait].p;
    if |p.bios| == 1 {
      OnlyOne(p.bios);
    }
  }

  lemma OnlyOne(bios: seq<Bio>)
    requires |bios| == 1
    ensures forall b | b in bios :: b == bios[0]
  {
  }

  lemma BreakHeader(c: Setup, pw: nat, l: LogSt) returns (l1: LogSt)
    requires l.nWait < l.nSub <= |l.packs| && l.packs[l.nWait].p.header.records != [] && !l.packs[l.nWait].shouldFlush
    ensures Leads(c, pw, l, l1) && l.nWait in l1.hdrDone
    ensures l1 == l.(hdrDone := l1.hdrDone, done := l1.done)
  {
    hide Leads;
    LeadsHere(c, pw, l);
    l1 := l;
    if l.nWait !in l.hdrDone {
      LeadsOn(c, pw, l, l, HeaderDone(l.nWait));
      l1 := Next(c, pw, l, HeaderDone(l.nWait));
    }
  }

  lemma BreakBlocks(c: Setup, pw: nat, l: LogSt, m: LogSt)
    requires Leads(c, pw, l, m)
    ensures Leads(c, pw, l, m.(done := m.done + m.issued))
  {
    hide Leads;
    LeadsOn(c, pw, l, m, BlocksDone(m.issued));
  }

  lemma BreakBegin(c: Setup, pw: nat, l: LogSt, m: LogSt)
    requires Leads(c, pw, l, m) && m.phase.Between? && m.nWait < m.nSub <= |m.packs| && m.nWait in m.hdrDone
    requires m.packs[m.nWait].p.header.records != [] && !m.packs[m.nWait].shouldFlush
    ensures Leads(c, pw, l, m.(phase := Ready(0), edge := m.packs[m.nWait].p.header.lsid + 1))
  {
    hide Leads;
    LeadsOn(c, pw, l, m, BeginPack);
  }

  lemma FirstSpan(g: Geometry, p: Pack)
    requires p.header.records != [] && LoggedOf(g, p) != []
    ensures Span(LoggedOf(g, p)[0].lsid, End(LoggedOf(g, p)[0])) <= BlocksOf(g, p)
  {
    hide LoggedOf;
    var e := LoggedOf(g, p)[0];
    forall m | m in Span(e.lsid, End(e)) ensures m in BlocksOf(g, p) {
      assert InRange(e, m);
      InRanges(LoggedOf(g, p), m);
    }
  }

  lemma BreakInsert(c: Setup, pw: nat, l: LogSt, m: LogSt)
    requires Leads(c, pw, l, m) && m.phase == Ready(0) && m.nWait < |m.packs| && CurLogged(c, m) != []
    requires m.packs[m.nWait].p.header.records != [] && BlocksOf(c.g, m.packs[m.nWait].p) <= m.done
    ensures Leads(c, pw, l, m.(phase := Inserted(0), edge := End(CurLogged(c, m)[0]), inserted := m.inserted + 1))
  {
    hide Leads, LoggedOf, BlocksOf;
    FirstSpan(c.g, m.packs[m.nWait].p);
    LeadsOn(c, pw, l, m, InsertPending);
  }

  lemma BreakAck(c: Setup, pw: nat, l: LogSt, m: LogSt) returns (l2: LogSt)
    requires Leads(c, pw, l, m) && m.phase == Inserted(0) && m.nWait < |m.packs|
    requires 0 < |CurLogged(c, m)| <= |m.packs[m.nWait].p.bios|
    requires m.packs[m.nWait].p.bios[0].flush && !m.packs[m.nWait].p.bios[0].fua
    ensures Leads(c, pw, l, l2) && l2.durable == m.durable && l2.issued == m.issued
    ensures l2.flushes == m.flushes + [AckedFlush(m.packs[m.nWait].p.bios[0].stamp, m.nWait)]
  {
    hide Leads;
    LeadsOn(c, pw, l, m, Ack);
    l2 := Next(c, pw, m, Ack);
  }

  /** From every state at such a flush, a continuation in which the device destages
      nothing acknowledges it too early, if the pack also holds a FUA request. */
  lemma UnguardedBreaks(c: Setup, pw: nat, l: LogSt) returns (l2: LogSt)
    requires AtFlush(l) && Inv(c, l) && HeaderOrFua(l) && Unguarded(l.packs[l.nWait], l.nWait)
    ensures Broken(c, pw, l, l2)
  {
    AboutUnguarded(c, l);
    Submitted(c, l);
    hide Inv, HeaderOrFua, Unguarded, Leads, PackOk, BlocksOf, LoggedOf;
    var l1 := BreakHeader(c, pw, l);
    BreakBlocks(c, pw, l, l1);
    var m := l1.(done := l1.done + l1.issued);
    BreakBegin(c, pw, l, m);
    var n := m.(phase := Ready(0), edge := m.packs[m.nWait].p.header.lsid + 1);
    BreakInsert(c, pw, l, n);
    var o := n.(phase := Inserted(0), edge := End(CurLogged(c, n)[0]), inserted := n.inserted + 1);
    l2 := BreakAck(c, pw, l, o);
    AddedFlush(l2, l.flushes, TheFlush(l));
    StillLost(l, l2, TheFlush(l).stamp);
  }

  lemma Submitted(c: Setup, l: LogSt)
    requires Inv(c, l) && l.nWait < l.nSub
    ensures l.nSub <= |l.packs| && BlocksOf(c.g, l.packs[l.nWait].p) <= l.issued
  {
    QueueOk(c, l);
    hide Shape, Position, HeadersOk, FlushOk, BlocksOf;
  }

  lemma AddedFlush(l2: LogSt, flushes: seq<AckedFlush>, f: AckedFlush)
    requires l2.flushes == flushes + [f]
    ensures f in l2.flushes
  {
  }

  lemma StillLost(l: LogSt, l2: LogSt, x: nat)
    requires !Below(l, l.durable, x) && l2.durable == l.durable && l2.issued == l.issued
    ensures !OnMedium(l2, x)
  {
  }

  /** For every reachable state in which the wait task comes to a plain flush while
      something acknowledged before that flush is not yet on the medium: a
      continuation acknowledges the flush too early exactly if the flush is the
      first of its batch and its pack also holds a FUA request. */
  lemma FlushExactly(c: Setup, pw: nat, l: LogSt)
    requires c.g.ring >= MAX_TOTAL_IO_SIZE && AtFlush(l) && Inv(c, l) && Promised(l)
    ensures (exists l2 :: Broken(c, pw, l, l2)) <==> Unguarded(l.packs[l.nWait], l.nWait)
  {
    hide Inv, Stamps, FuaDone, FuaKept, FlushKept, HeaderOrFua, OnMedium, Unguarded, Leads, AtFlush;
    AtHas(l);
    if Unguarded(l.packs[l.nWait], l.nWait) {
      var l2 := UnguardedBreaks(c, pw, l);
    } else {
      forall l2 ensures !Broken(c, pw, l, l2) {
        if Broken(c, pw, l, l2) {
          GuardedHolds(c, pw, l, l2);
        }
      }
    }
  }

  lemma AtHas(l: LogSt)
    requires AtFlush(l)
    ensures l.nWait < |l.packs| && l.packs[l.nWait].p.bios != []
  {
  }
}
