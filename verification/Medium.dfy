/** What reaches the media. A flush makes durable what was complete when it was
    begun, no less and no more; the superblock takes the written_lsid from before
    the flush of the data device. */
module Medium {
  import opened Words
  import opened LogRecord
  import opened Logpack
  import opened WritePack
  import opened Disk
  import opened LogDevice
  import opened RoundTrip
  import opened Recovery
  import opened Submit
  import opened LogSide
  import opened Promises
  import opened DataSide
  import opened Pipeline
  import opened Crash

  /** Step `a` of the run is this one. */
  ghost predicate StepIs(c: Setup, run: seq<St>, a: nat, p: PStep) {
    a + 1 < |run| && Follows(c, run[a], run[a + 1], p)
  }

  /** Steps that begin a flush of the log device. */
  predicate Begins(t: LStep) {
    t.BeginFlush? || t.StartFua? || t.Create?
  }

  /** The flush was begun by step `a`: it recorded what was complete then. */
  ghost predicate BegunBy(c: Setup, run: seq<St>, a: nat, tok: Token) {
    && a + 1 < |run| && tok == Token(run[a].l.completed, run[a].l.done)
    && exists t :: Begins(t) && StepIs(c, run, a, Log(t))
  }

  ghost predicate WasBegun(c: Setup, run: seq<St>, j: nat, tok: Token) {
    exists a :: 0 <= a < j && BegunBy(c, run, a, tok)
  }

  /** Every flush that is under way in state `j` was begun before. */
  ghost predicate AllBegun(c: Setup, run: seq<St>, j: nat)
    requires j < |run|
  {
    var l := run[j].l;
    && (forall k | 0 <= k < |l.toks| :: WasBegun(c, run, j, l.toks[k]))
    && (l.phase.Flushing? ==> WasBegun(c, run, j, l.phase.tok))
    && (forall i | 0 <= i < |l.packs| :: WasBegun(c, run, j, l.packs[i].tok))
  }

  /** Where the flushes of the next state come from. */
  lemma TokensFrom(c: Setup, pw: nat, l: LogSt, t: LStep)
    requires Enabled(c, pw, l, t)
    ensures var l2, now := Next(c, pw, l, t), Token(l.completed, l.done);
      && (forall k | 0 <= k < |l2.toks| :: (t.BeginFlush? && l2.toks[k] == now) || l2.toks[k] in l.toks)
      && (l2.phase.Flushing? ==> (t.StartFua? && l2.phase.tok == now) || l2.phase == l.phase)
      && (forall i | 0 <= i < |l2.packs| ::
            (t.Create? && l2.packs[i].tok == now) || (i < |l.packs| && l2.packs[i] == l.packs[i]))
  {
    hide LoggedOf, AckedTo, PackAll, AllLogged, BlocksOf, NextLsid, Acceptable, Room, Max, HasHeaderIo;
  }

  lemma BegunLater(c: Setup, run: seq<St>, i: nat, j: nat, tok: Token)
    requires WasBegun(c, run, i, tok) && i <= j
    ensures WasBegun(c, run, j, tok)
  {
    hide BegunBy;
  }

  lemma BegunNow(c: Setup, run: seq<St>, j: nat, t: LStep)
    requires Begins(t) && StepIs(c, run, j, Log(t))
    ensures WasBegun(c, run, j + 1, Token(run[j].l.completed, run[j].l.done))
  {
    hide Follows;
    assert BegunBy(c, run, j, Token(run[j].l.completed, run[j].l.done));
  }

  lemma LogStepIs(c: Setup, s: St, s2: St, t: LStep)
    requires Follows(c, s, s2, Log(t))
    ensures Enabled(c, s.prevWritten, s.l, t) && s2.l == Next(c, s.prevWritten, s.l, t)
  {
    hide Enabled, Next;
  }

  lemma OtherStepIs(c: Setup, s: St, s2: St, p: PStep)
    requires Follows(c, s, s2, p) && !p.Log?
    ensures s2.l == s.l
  {
    hide DEnabled, DNext;
  }

  lemma BegunStep(c: Setup, run: seq<St>, j: nat, p: PStep)
    requires StepIs(c, run, j, p) && AllBegun(c, run, j)
    ensures AllBegun(c, run, j + 1)
  {
    hide WasBegun, Enabled, Next, Follows;
    var l, l2 := run[j].l, run[j + 1].l;
    if p.Log? {
      LogStepIs(c, run[j], run[j + 1], p.s);
      TokensFrom(c, run[j].prevWritten, l, p.s);
      if Begins(p.s) {
        BegunNow(c, run, j, p.s);
      }
    } else {
      OtherStepIs(c, run[j], run[j + 1], p);
    }
    forall tok | WasBegun(c, run, j, tok) ensures WasBegun(c, run, j + 1, tok) {
      BegunLater(c, run, j, j + 1, tok);
    }
  }

  lemma {:induction false} RunBegun(c: Setup, base: u64, run: seq<St>, j: nat)
    requires Run(c, base, run) && j < |run|
    ensures AllBegun(c, run, j)
    decreases j
  {
    hide Can, Do, Begun;
    if j > 0 {
      RunBegun(c, base, run, j - 1);
      assert OneStep(c, run[j - 1], run[j]);
      var p :| Follows(c, run[j - 1], run[j], p);
      hide AllBegun;
      BegunStep(c, run, j - 1, p);
    }
  }

  /** Step `j` ends the flush that step `a` began. */
  ghost predicate FlushFrom(c: Setup, run: seq<St>, a: nat, j: nat) {
    && a < j && j + 1 < |run| && BegunBy(c, run, a, Token(run[a].l.completed, run[a].l.done))
    && run[j + 1].l.durable == run[j].l.durable + run[a].l.done
    && (run[j + 1].l.permanent == run[j].l.permanent || run[j + 1].l.permanent == run[a].l.completed)
  }

  /** The flush that the step ends. */
  ghost predicate Ends(l: LogSt, t: LStep, tok: Token) {
    match t
    case EndFlush(k) => k < |l.toks| && tok == l.toks[k]
    case EndFua => l.phase.Flushing? && tok == l.phase.tok
    case HeaderDone(i) => i < |l.packs| && l.packs[i].shouldFlush && tok == l.packs[i].tok
    case _ => false
  }

  lemma DurableStep(c: Setup, pw: nat, l: LogSt, t: LStep)
    requires Enabled(c, pw, l, t)
    ensures var l2 := Next(c, pw, l, t);
      || l2.durable == l.durable
      || (t.Destage? && l2.durable == l.durable + t.ms)
      || exists tok :: Ends(l, t, tok) && l2.durable == l.durable + tok.snap
  {
    hide LoggedOf, AckedTo, PackAll, AllLogged, BlocksOf, NextLsid, Acceptable, Room, HasHeaderIo, Max;
    var l2 := Next(c, pw, l, t);
    if t.EndFlush? {
      assert Ends(l, t, l.toks[t.k]);
    } else if t.EndFua? {
      assert Ends(l, t, l.phase.tok);
    } else if t.HeaderDone? {
      assert l.packs[t.i].shouldFlush ==> Ends(l, t, l.packs[t.i].tok);
    }
  }

  lemma EndsMoves(c: Setup, pw: nat, l: LogSt, t: LStep, tok: Token)
    requires Enabled(c, pw, l, t) && Ends(l, t, tok)
    ensures var l2 := Next(c, pw, l, t);
      l2.durable == l.durable + tok.snap && (l2.permanent == l.permanent || l2.permanent == tok.target)
  {
    hide LoggedOf;
  }

  lemma EndsBegun(c: Setup, run: seq<St>, j: nat, t: LStep, tok: Token)
    requires j < |run| && AllBegun(c, run, j) && Ends(run[j].l, t, tok)
    ensures WasBegun(c, run, j, tok)
  {
    hide WasBegun;
  }

  /** In every run a step that ends a flush makes durable exactly what was complete
      when the flush was begun, and takes permanent_lsid no further than
      completed_lsid was then. */
  lemma EveryFlushSnaps(c: Setup, base: u64, run: seq<St>, j: nat, t: LStep, tok: Token)
    requires Run(c, base, run) && StepIs(c, run, j, Log(t)) && Ends(run[j].l, t, tok)
    ensures exists a :: FlushFrom(c, run, a, j)
  {
    RunBegun(c, base, run, j);
    hide Run, AllBegun;
    EndsBegun(c, run, j, t, tok);
    LogStepIs(c, run[j], run[j + 1], t);
    hide Enabled, Next, Follows;
    EndsMoves(c, run[j].prevWritten, run[j].l, t, tok);
    hide Ends, Begins;
    var a :| 0 <= a < j && BegunBy(c, run, a, tok);
    assert FlushFrom(c, run, a, j);
  }

  /** In every run a block becomes durable only if the device destages it or a flush
      ends that was begun after it was complete. */
  lemma EveryRunMedium(c: Setup, base: u64, run: seq<St>, j: nat)
    requires Run(c, base, run) && j + 1 < |run|
    ensures || run[j + 1].l.durable == run[j].l.durable
            || (exists ms :: StepIs(c, run, j, Log(Destage(ms))) && run[j + 1].l.durable == run[j].l.durable + ms)
            || exists a :: FlushFrom(c, run, a, j)
  {
    assert OneStep(c, run[j], run[j + 1]);
    hide Can, Do, FlushFrom;
    var p :| Follows(c, run[j], run[j + 1], p);
    hide Follows;
    if p.Log? {
      LogStepIs(c, run[j], run[j + 1], p.s);
      DurableStep(c, run[j].prevWritten, run[j].l, p.s);
      hide Enabled, Next, Ends;
      if p.s.Destage? && run[j + 1].l.durable == run[j].l.durable + p.s.ms {
        assert StepIs(c, run, j, Log(Destage(p.s.ms)));
      } else if run[j + 1].l.durable != run[j].l.durable {
        var tok :| Ends(run[j].l, p.s, tok) && run[j + 1].l.durable == run[j].l.durable + tok.snap;
        EveryFlushSnaps(c, base, run, j, p.s, tok);
      }
    } else {
      OtherStepIs(c, run[j], run[j + 1], p);
    }
  }

  // ------------------------------------------------------------ the superblock

  /** The sync under way took written_lsid at step `a`, and issued the flush of the
      data device at step `b`, behind it. */
  ghost predicate SyncedBy(c: Setup, run: seq<St>, a: nat, b: nat, sync: Sync)
    requires sync.Syncing?
  {
    && a < |run| && StepIs(c, run, a, SyncSnap) && sync.w == run[a].written && sync.n == run[a].nGc
    && match sync.stage {
         case Snapped => true
         case Issued(h) => HitsAt(c, run, a, b, h)
         case Flushed(h) => HitsAt(c, run, a, b, h)
         case OnDisk => true
       }
  }

  /** The flush of step `b` was issued when the data device had taken `h` hits. */
  ghost predicate HitsAt(c: Setup, run: seq<St>, a: nat, b: nat, h: nat) {
    a < b < |run| && StepIs(c, run, b, SyncIssue) && h == |run[b].d.hits|
  }

  ghost predicate SyncTaken(c: Setup, run: seq<St>, j: nat)
    requires j < |run|
  {
    run[j].sync.Syncing? ==> exists a, b :: 0 <= a < j && 0 <= b < j && SyncedBy(c, run, a, b, run[j].sync)
  }

  predicate SyncSteps(p: PStep) {
    p.SyncSnap? || p.SyncIssue? || p.SyncFlushed? || p.SuperWrite? || p.SyncEnd?
  }

  /** The counters of the superblock and of the data device's flush move in no other
      step. */
  lemma OnlySyncMoves(c: Setup, s: St, p: PStep)
    requires Can(c, s, p) && !SyncSteps(p)
    ensures var s2 := Do(c, s, p);
      s2.sync == s.sync && s2.super == s.super && s2.nSuper == s.nSuper && s2.flushed == s.flushed && s2.prevWritten == s.prevWritten
  {
    hide Enabled, Next, DEnabled, DNext;
  }

  lemma SnapTaken(c: Setup, run: seq<St>, j: nat)
    requires StepIs(c, run, j, SyncSnap)
    ensures SyncTaken(c, run, j + 1)
  {
    assert SyncedBy(c, run, j, j, run[j + 1].sync);
  }

  lemma IssueTaken(c: Setup, run: seq<St>, j: nat)
    requires StepIs(c, run, j, SyncIssue) && SyncTaken(c, run, j)
    ensures SyncTaken(c, run, j + 1)
  {
    var a, b :| 0 <= a < j && 0 <= b < j && SyncedBy(c, run, a, b, run[j].sync);
    assert HitsAt(c, run, a, j, |run[j].d.hits|);
    assert SyncedBy(c, run, a, j, run[j + 1].sync);
  }

  lemma LaterTaken(c: Setup, run: seq<St>, j: nat, p: PStep)
    requires StepIs(c, run, j, p) && SyncTaken(c, run, j) && (p.SyncFlushed? || p.SuperWrite? || p.SyncEnd?)
    ensures SyncTaken(c, run, j + 1)
  {
    var a, b :| 0 <= a < j && 0 <= b < j && SyncedBy(c, run, a, b, run[j].sync);
    hide HitsAt;
    if run[j + 1].sync.Syncing? {
      assert SyncedBy(c, run, a, b, run[j + 1].sync);
    }
  }

  lemma TakenStep(c: Setup, run: seq<St>, j: nat, p: PStep)
    requires StepIs(c, run, j, p) && SyncTaken(c, run, j)
    ensures SyncTaken(c, run, j + 1)
  {
    if p.SyncSnap? {
      SnapTaken(c, run, j);
    } else if p.SyncIssue? {
      IssueTaken(c, run, j);
    } else if SyncSteps(p) {
      LaterTaken(c, run, j, p);
    } else {
      OnlySyncMoves(c, run[j], p);
      hide Can, Do, SyncedBy;
    }
  }

  lemma {:induction false} RunTaken(c: Setup, base: u64, run: seq<St>, j: nat)
    requires Run(c, base, run) && j < |run|
    ensures SyncTaken(c, run, j)
    decreases j
  {
    hide Can, Do, SyncedBy;
    if j > 0 {
      RunTaken(c, base, run, j - 1);
      assert OneStep(c, run[j - 1], run[j]);
      var p :| Follows(c, run[j - 1], run[j], p);
      hide SyncTaken;
      TakenStep(c, run, j - 1, p);
    }
  }

  /** Step `j` ends the flush of the data device that was issued at step `b`, behind
      the step `a` that took written_lsid. */
  ghost predicate DataFlushed(c: Setup, run: seq<St>, a: nat, b: nat, j: nat) {
    && a < b < j < |run| - 1 && StepIs(c, run, a, SyncSnap) && StepIs(c, run, b, SyncIssue)
    && run[j + 1].flushed == Max(run[j].flushed, |run[b].d.hits|) && run[j].sync.Syncing? && run[j].sync.w == run[a].written
  }

  /** What the superblock gets, and what is known to be on the medium of the data
      device. In every run the flush covers exactly what the device had taken when it
      was issued; the superblock gets the written_lsid that had been taken before;
      and nothing else moves either. */
  lemma EverySyncSnaps(c: Setup, base: u64, run: seq<St>, j: nat, p: PStep)
    requires Run(c, base, run) && StepIs(c, run, j, p)
    ensures p.SyncFlushed? ==> exists a, b :: DataFlushed(c, run, a, b, j)
    ensures p.SuperWrite? ==> exists a :: 0 <= a < j && StepIs(c, run, a, SyncSnap) && run[j + 1].super == run[a].written
    ensures !p.SyncFlushed? ==> run[j + 1].flushed == run[j].flushed
    ensures !p.SuperWrite? ==> run[j + 1].super == run[j].super
  {
    RunTaken(c, base, run, j);
    hide Run;
    if p.SyncFlushed? {
      var a, b :| 0 <= a < j && 0 <= b < j && SyncedBy(c, run, a, b, run[j].sync);
      assert DataFlushed(c, run, a, b, j);
    } else if p.SuperWrite? {
      var a, b :| 0 <= a < j && 0 <= b < j && SyncedBy(c, run, a, b, run[j].sync);
      assert StepIs(c, run, a, SyncSnap) && run[j + 1].super == run[a].written;
    } else if !SyncSteps(p) {
      OnlySyncMoves(c, run[j], p);
      hide Can, Do;
    }
  }

  // ------------------------------------------------------------ header flushes

  /** The batch has to flush the log: a flush without FUA is in it, or the task says so. */
  ghost predicate Wants(bios: seq<Bio>, auto: bool) {
    auto || exists b :: b in bios && b.flush && !b.fua
  }

  lemma NewPackIs(l: LogSt, ps: seq<Pack>, isFlush: bool, i: nat)
    requires i < |ps|
    ensures NewPacks(l, ps, isFlush)[i].p == ps[i] && (NewPacks(l, ps, isFlush)[i].shouldFlush <==> i == 0 && isFlush && !ps[0].fua)
  {
  }

  lemma CreatedIs(c: Setup, pw: nat, l: LogSt, n: nat, auto: bool)
    requires Enabled(c, pw, l, Create(n, auto)) && l.latest < U64_SIZE
    ensures var l2, st := Next(c, pw, l, Create(n, auto)), PackAll(c.g, c.maxPb, l.latest, l.queue[..n]);
      && l2.packs == l.packs + NewPacks(l, st.packs, st.isFlush || auto)
      && l2.flush == if st.isFlush || auto then Max(l.flush, l.completed) else l.flush
  {
    hide PackAll, AllLogged, NewPacks, Max;
  }

  /** A batch that has to flush moves flush_lsid up to completed_lsid, and its first
      pack, and no other one, flushes the device with its header, unless that pack
      has a FUA request; a batch that has not to flush does neither. */
  lemma BatchFlushes(c: Setup, pw: nat, l: LogSt, n: nat, auto: bool)
    requires c.g.ring >= MAX_TOTAL_IO_SIZE && Shape(c, l) && Enabled(c, pw, l, Create(n, auto))
    ensures var l2 := Next(c, pw, l, Create(n, auto));
      && |l.packs| < |l2.packs| && l2.flush == (if Wants(l.queue[..n], auto) then Max(l.flush, l.completed) else l.flush)
      && (l2.packs[|l.packs|].shouldFlush <==> Wants(l.queue[..n], auto) && !l2.packs[|l.packs|].p.fua)
      && forall i | |l.packs| < i < |l2.packs| :: !l2.packs[i].shouldFlush
  {
    CreateEnabled(c, pw, l, n, auto);
    QueueOk(c, l);
    hide Shape, PackAll, AllLogged, GoodPacks, Chained, AllFit, WritesOf, AllBios, Acceptable, Room, Enabled, Next, NewPacks, Max;
    NewPacksOk(c, l, n);
    CreatedIs(c, pw, l, n, auto);
    var st, l2 := PackAll(c.g, c.maxPb, l.latest, l.queue[..n]), Next(c, pw, l, Create(n, auto));
    forall i | |l.packs| <= i < |l2.packs|
      ensures l2.packs[i].shouldFlush <==> i == |l.packs| && (st.isFlush || auto) && !l2.packs[i].p.fua
    {
      NewPackIs(l, st.packs, st.isFlush || auto, i - |l.packs|);
    }
  }
}
