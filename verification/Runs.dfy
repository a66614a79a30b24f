/** What holds in every state of every run of the pipeline: the theorems about the
    single parts, stated over runs from the start of the device. */
module Runs {
  import opened Words
  import opened LogRecord
  import opened Logpack
  import opened WritePack
  import opened Disk
  import opened LogDevice
  import opened RoundTrip
  import opened Recovery
  import opened Submit
  import opened Overlapped
  import opened LogSide
  import opened Promises
  import opened FlushExact
  import opened DataSide
  import opened Pipeline
  import opened Crash
  import opened LsidOrder
  import opened Reads

  lemma RunData(c: Setup, base: u64, run: seq<St>, i: nat)
    requires c.g.ring >= MAX_TOTAL_IO_SIZE && Run(c, base, run) && i < |run|
    ensures PInv(c, run[i]) && DInv(EnvOf(run[i].l), run[i].d)
  {
    RunInv(c, base, run, i);
    hide Inv, Promised, DInv, GcOk, SyncOk, RingOk, Run;
  }

  /** The overlap scheduler of every run can always go on: what the wait task waits
      for next waits for no other write and is with the device. */
  lemma EveryRunProgresses(c: Setup, base: u64, run: seq<St>, i: nat)
    requires c.g.ring >= MAX_TOTAL_IO_SIZE && Run(c, base, run) && i < |run|
    requires run[i].d.gone == run[i].d.olDel < run[i].d.batch
    ensures var d := run[i].d; d.q != [] && d.q[0].id == d.olDel && d.q[0].n == 0 && d.olDel in d.submitted
  {
    RunData(c, base, run, i);
    hide PInv, DInv, Run;
    HeadReady(EnvOf(run[i].l), run[i].d);
  }

  /** In every run overlapping writes are never with the device together, and reach
      it in the order of the log. */
  lemma EveryRunSerializes(c: Setup, base: u64, run: seq<St>, i: nat, k: nat, m: nat)
    requires c.g.ring >= MAX_TOTAL_IO_SIZE && Run(c, base, run) && i < |run|
    requires k in run[i].d.submitted && m < k < |run[i].l.writes| && Overlap(run[i].l.writes[m].w, run[i].l.writes[k].w)
    ensures m in run[i].d.finished && m < run[i].d.olDel
  {
    RunData(c, base, run, i);
    hide PInv, Run, Order, MapOk, Flight, HitsOk, PendOk, Sending, Once;
    EarlierGone(EnvOf(run[i].l), run[i].d, k, m);
  }

  /** Every run sends each write to the data device exactly once. */
  lemma EveryRunSendsOnce(c: Setup, base: u64, run: seq<St>, i: nat, k: nat)
    requires c.g.ring >= MAX_TOTAL_IO_SIZE && Run(c, base, run) && i < |run|
    ensures multiset(run[i].d.log)[k] <= 1
    ensures k < run[i].d.olDel ==> multiset(run[i].d.log)[k] == 1
  {
    RunData(c, base, run, i);
    hide PInv, DInv, Run;
    SentExactlyOnce(EnvOf(run[i].l), run[i].d, k);
  }

  /** No run overwrites a block of the log that recovery still needs. */
  lemma EveryRunKeepsLog(c: Setup, base: u64, run: seq<St>, i: nat, m: nat)
    requires c.g.ring >= MAX_TOTAL_IO_SIZE && Run(c, base, run) && i < |run| && run[i].super <= m
    ensures !Overwritten(c, run[i].l, m)
  {
    RunInv(c, base, run, i);
    PInvParts(c, run[i]);
    hide PInv, Inv, Shape, Promised, DInv, SyncOk, RingOk, Run, Overwritten, HitBy, PacksGone;
    RingSafe(c, run[i], m);
  }

  /** In every run the data device overlaid with the pending writes shows all writes
      inserted so far, applied in log order. */
  lemma EveryRunShowsAllWrites(c: Setup, base: u64, run: seq<St>, i: nat, d0: Image, x: nat)
    requires c.g.ring >= MAX_TOTAL_IO_SIZE && Run(c, base, run) && i < |run| && x < |d0| == c.size
    ensures run[i].l.inserted <= |run[i].l.writes|
    ensures View(d0, EnvOf(run[i].l), run[i].d, x) == Apply(d0, WritesIn(run[i].l.writes, run[i].l.inserted))[x]
  {
    RunData(c, base, run, i);
    PInvParts(c, run[i]);
    hide PInv, Inv, Shape, Promised, DInv, GcOk, SyncOk, RingOk, Run, View, Apply, LoggedFit;
    InvAcked(c, run[i].l);
    AllWritesFit(c, run[i].l);
    ReadsSeeAllWrites(d0, EnvOf(run[i].l), run[i].d, x);
  }

  /** The lsid counters of every run: two chains that always hold, and the link
      between them, which fails exactly behind a FUA request with trailing padding. */
  lemma EveryRunCounts(c: Setup, base: u64, run: seq<St>, i: nat)
    requires c.g.ring >= MAX_TOTAL_IO_SIZE && Run(c, base, run) && i < |run|
    ensures var s := run[i];
      && s.oldest <= s.prevWritten <= s.written && s.l.permanent <= s.l.flush <= s.l.completed <= s.l.latest
      && (s.written > s.l.permanent <==> exists k :: Breaks(c, s, k))
  {
    RunClean(c, base, run, i);
    hide PInv, CleanAll, Run, Breaks;
    OrderHolds(c, run[i]);
    WrittenExactly(c, run[i]);
  }

  /** As long as no pack of the run ends in padding behind a FUA request, the whole
      order of lsid_set_is_valid holds. */
  lemma EveryRunOrdersLsids(c: Setup, base: u64, run: seq<St>, i: nat)
    requires c.g.ring >= MAX_TOTAL_IO_SIZE && Run(c, base, run) && i < |run|
    requires forall k | 0 <= k < |run[i].l.packs| :: !FuaTail(c.g, run[i].l.packs[k].p)
    ensures var s := run[i];
      s.oldest <= s.prevWritten <= s.written <= s.l.permanent <= s.l.flush <= s.l.completed <= s.l.latest
  {
    RunClean(c, base, run, i);
    hide PInv, CleanAll, Run, FuaTail;
    LsidSetIsValid(c, run[i]);
  }

  // ------------------------------------------------------- flushes over whole runs

  lemma RunMore(c: Setup, base: u64, run: seq<St>, p: PStep) returns (more: seq<St>)
    requires Run(c, base, run) && Can(c, run[|run| - 1], p)
    ensures Run(c, base, more) && |more| == |run| + 1 && more[..|run|] == run
    ensures more[|run|] == Do(c, run[|run| - 1], p)
  {
    hide Can, Do;
    more := run + [Do(c, run[|run| - 1], p)];
    assert Follows(c, run[|run| - 1], more[|run|], p);
    forall k | 0 < k < |more| ensures OneStep(c, more[k - 1], more[k]) {
      if k < |run| {
        assert OneStep(c, run[k - 1], run[k]);
      }
    }
  }

  lemma LiftStep(c: Setup, base: u64, run: seq<St>, l2: LogSt) returns (more: seq<St>)
    requires c.g.ring >= MAX_TOTAL_IO_SIZE && run != [] && Run(c, base, run)
    requires SomeStep(c, run[|run| - 1].prevWritten, run[|run| - 1].l, l2)
    ensures Run(c, base, more) && |more| == |run| + 1 && more[..|run|] == run
    ensures more[|run|].l == l2 && more[|run|].prevWritten == run[|run| - 1].prevWritten
  {
    hide Run, Enabled, Next, PInv, Can, Do;
    var s := run[|run| - 1];
    var t :| IsStep(c, s.prevWritten, s.l, l2, t);
    RunInv(c, base, run, |run| - 1);
    LogCan(c, s, t);
    more := RunMore(c, base, run, Log(t));
  }

  /** Whatever the log side can do, the pipeline can do. */
  lemma {:induction false} Lifted(c: Setup, base: u64, run: seq<St>, log: seq<LogSt>, n: nat) returns (more: seq<St>)
    requires c.g.ring >= MAX_TOTAL_IO_SIZE && run != [] && Run(c, base, run) && n < |log|
    requires LogRun(c, run[|run| - 1].prevWritten, log) && log[0] == run[|run| - 1].l
    ensures |run| <= |more| && Run(c, base, more) && more[..|run|] == run
    ensures more[|more| - 1].l == log[n] && more[|more| - 1].prevWritten == run[|run| - 1].prevWritten
    decreases n
  {
    hide Run, SomeStep;
    if n == 0 {
      RunIsSome(c, base, run);
      more := run;
    } else {
      var r := Lifted(c, base, run, log, n - 1);
      assert SomeStep(c, run[|run| - 1].prevWritten, log[n - 1], log[n]);
      more := LiftStep(c, base, r, log[n]);
      assert more[..|run|] == more[..|r|][..|run|];
    }
  }

  lemma RunIsSome(c: Setup, base: u64, run: seq<St>)
    requires Run(c, base, run)
    ensures run != [] && run[..|run|] == run
  {
  }

  lemma LogCan(c: Setup, s: St, t: LStep)
    requires PInv(c, s) && Enabled(c, s.prevWritten, s.l, t)
    ensures Can(c, s, Log(t)) && Do(c, s, Log(t)).l == Next(c, s.prevWritten, s.l, t)
    ensures Do(c, s, Log(t)).prevWritten == s.prevWritten
  {
    PInvParts(c, s);
    hide PInv, Inv, Shape, Promised, DInv, GcOk, SyncOk, RingOk, Next;
    if t.InsertPending? {
      InsertHasWrite(c, s.prevWritten, s.l);
    }
    hide Enabled;
  }

  /** The run goes on to a state that has acknowledged the flush too early. */
  ghost predicate GoesWrong(c: Setup, base: u64, run: seq<St>, more: seq<St>, f: AckedFlush) {
    && |run| <= |more| && Run(c, base, more) && more[..|run|] == run
    && f in more[|more| - 1].l.flushes && !OnMedium(more[|more| - 1].l, f.stamp)
  }

  lemma InsertHasWrite(c: Setup, pw: nat, l: LogSt)
    requires Inv(c, l) && Enabled(c, pw, l, InsertPending)
    ensures l.inserted < |l.writes|
  {
    InvShape(c, l);
    InvPosition(c, l);
    hide Inv, Shape, LoggedOf, CountBefore, PartEdge;
    AtReady(c, pw, l);
    hide Position, Enabled;
    WriteAt(c, l, l.nWait, l.phase.j);
  }

  lemma AtReady(c: Setup, pw: nat, l: LogSt)
    requires Enabled(c, pw, l, InsertPending) && Position(c, l)
    ensures l.nWait < |l.packs| && !l.phase.Between? && l.phase.j < |LoggedOf(c.g, l.packs[l.nWait].p)|
    ensures l.inserted == CountBefore(c, l, l.nWait) + l.phase.j
  {
    hide LoggedOf, CountBefore, PartEdge;
  }

  lemma PacksStep(c: Setup, s: St, p: PStep)
    requires c.g.ring >= MAX_TOTAL_IO_SIZE && PInv(c, s) && Can(c, s, p)
    ensures s.l.packs <= Do(c, s, p).l.packs
  {
    PInvParts(c, s);
    hide PInv, Inv, Shape, Promised, DInv, GcOk, SyncOk, RingOk, Enabled, Next, DEnabled, DNext;
    if p.Log? {
      StepGrows(c, s.prevWritten, s.l, p.s);
    }
  }

  lemma {:induction false} PacksStay(c: Setup, base: u64, run: seq<St>, i: nat, j: nat)
    requires c.g.ring >= MAX_TOTAL_IO_SIZE && Run(c, base, run) && i <= j < |run|
    ensures run[i].l.packs <= run[j].l.packs
    decreases j
  {
    hide PInv, Can, Do;
    if i < j {
      PacksStay(c, base, run, i, j - 1);
      RunInv(c, base, run, j - 1);
      assert OneStep(c, run[j - 1], run[j]);
      var p :| Follows(c, run[j - 1], run[j], p);
      PacksStep(c, run[j - 1], p);
    }
  }

  lemma GuardedRun(c: Setup, base: u64, run: seq<St>, more: seq<St>, f: AckedFlush)
    requires c.g.ring >= MAX_TOTAL_IO_SIZE && Run(c, base, run) && run != []
    requires f.pack < |run[|run| - 1].l.packs| && !Unguarded(run[|run| - 1].l.packs[f.pack], f.pack)
    ensures !GoesWrong(c, base, run, more, f)
  {
    hide Run, Unguarded, OnMedium;
    if |run| <= |more| && Run(c, base, more) && more[..|run|] == run && f in more[|more| - 1].l.flushes {
      RunPromised(c, base, more);
      var l2 := more[|more| - 1].l;
      PacksStay(c, base, more, |run| - 1, |more| - 1);
      assert more[|run| - 1] == more[..|run|][|run| - 1];
      KeptInRun(l2, f);
    }
  }

  lemma KeptInRun(l: LogSt, f: AckedFlush)
    requires FlushKept(l) && f in l.flushes
    ensures KeepsFlush(l, f)
  {
    var n :| 0 <= n < |l.flushes| && l.flushes[n] == f;
    hide KeepsFlush;
  }

  lemma RunPromised(c: Setup, base: u64, run: seq<St>)
    requires c.g.ring >= MAX_TOTAL_IO_SIZE && Run(c, base, run)
    ensures run != [] && FlushKept(run[|run| - 1].l)
  {
    RunInv(c, base, run, |run| - 1);
    hide Inv, FuaKept, Stamps, FuaDone, FlushKept, HeaderOrFua, DInv, GcOk, SyncOk, RingOk;
  }

  lemma UnguardedRun(c: Setup, base: u64, run: seq<St>) returns (more: seq<St>)
    requires c.g.ring >= MAX_TOTAL_IO_SIZE && Run(c, base, run) && run != [] && AtFlush(run[|run| - 1].l)
    requires Unguarded(run[|run| - 1].l.packs[run[|run| - 1].l.nWait], run[|run| - 1].l.nWait)
    ensures GoesWrong(c, base, run, more, TheFlush(run[|run| - 1].l))
  {
    RunInv(c, base, run, |run| - 1);
    var s := run[|run| - 1];
    PInvParts(c, s);
    hide Run, PInv, Inv, Shape, Promised, DInv, GcOk, SyncOk, RingOk, AtFlush, Unguarded, OnMedium, LogRun;
    FlushExactly(c, s.prevWritten, s.l);
    var l2 :| Broken(c, s.prevWritten, s.l, l2);
    var log :| LogRun(c, s.prevWritten, log) && log[0] == s.l && log[|log| - 1] == l2;
    more := Lifted(c, base, run, log, |log| - 1);
  }

  /** Every run that comes to a plain flush while something acknowledged before that
      flush is not yet on the medium: it can go on to acknowledge the flush too
      early exactly if the flush is the first request of its batch and its pack also
      holds a FUA request. */
  lemma EveryRunFlushesExactly(c: Setup, base: u64, run: seq<St>)
    requires c.g.ring >= MAX_TOTAL_IO_SIZE && Run(c, base, run) && run != [] && AtFlush(run[|run| - 1].l)
    ensures var l := run[|run| - 1].l;
      (exists more :: GoesWrong(c, base, run, more, TheFlush(l))) <==> Unguarded(l.packs[l.nWait], l.nWait)
  {
    hide Run, AtFlush, Unguarded, GoesWrong;
    var l := run[|run| - 1].l;
    AtHas(l);
    if Unguarded(l.packs[l.nWait], l.nWait) {
      var more := UnguardedRun(c, base, run);
    } else {
      forall more ensures !GoesWrong(c, base, run, more, TheFlush(l)) {
        GuardedRun(c, base, run, more, TheFlush(l));
      }
    }
  }
}
