/** The log half of the write pipeline of module/io.c as a step system:
    packing, submission to the log device, completion, flushes, acknowledgement,
    and the lsid counters. A step is what one task does between two lock
    boundaries; steps of different tasks interleave freely. */
module LogSide {
  import opened Words
  import opened LogRecord
  import opened Logpack
  import opened WritePack
  import opened Disk
  import opened LogDevice
  import opened RoundTrip
  import opened Recovery
  import opened Submit

  /** What is fixed: the geometry, the pack size limit and the device size. */
  datatype Setup = Setup(g: Geometry, maxPb: nat, size: nat)

  /** A flush of the log device on its way: it makes durable what was complete
      when it was issued, and lets permanent_lsid advance to `target`. */
  datatype Token = Token(target: nat, snap: set<nat>)

  /** A created pack. `shouldFlush` is pack_header_should_flush; `batch` is the
      index of the first pack of the same create_logpack_list call. */
  datatype LPack = LPack(p: Pack, shouldFlush: bool, tok: Token, batch: nat)

  /** Where task_wait_for_logpack_list stands in its current pack: `j` requests
      are through, the next one is in the named stage. */
  datatype Phase =
    | Between
    | Ready(j: nat)                // the next request is still being waited for
    | Inserted(j: nat)             // it is in the pending data
    | Marked(j: nat)               // FUA: completed_lsid has been advanced to its end
    | Flushing(j: nat, tok: Token) // FUA: inside force_flush_ldev
    | Flushed(j: nat)              // FUA: force_flush_ldev is over

  /** An acknowledged flush: the writes that end at or before `stamp` had been
      acknowledged when it was queued; `pack` is the pack it came in. */
  datatype AckedFlush = AckedFlush(stamp: nat, pack: nat)

  datatype LogSt = LogSt(
    base: nat,              // where this run of the device started
    queue: seq<Bio>,        // logpack_submit_queue
    packs: seq<LPack>,      // all packs created so far
    nSub: nat,              // of these, submitted
    hdrDone: set<nat>,      // packs whose header or flush I/O is complete
    issued: set<nat>,       // blocks submitted to the log device, by lsid
    done: set<nat>,         // blocks that reached the device's cache
    durable: set<nat>,      // blocks that are on the medium
    nWait: nat,             // packs through the wait task
    phase: Phase,
    edge: nat,              // the wait task has seen all blocks below complete
    toks: seq<Token>,       // force_flush_ldev calls of other tasks under way
    latest: nat, completed: nat, flush: nat, permanent: nat,
    writes: seq<Logged>,    // the requests of `packs`, in log order
    inserted: nat,          // of these, put into the pending data
    acked: nat,             // of these, acknowledged and queued for the data device
    fuaPromise: nat,        // end of the last acknowledged FUA write
    flushes: seq<AckedFlush>)  // the flushes acknowledged so far

  function Init(base: nat): LogSt {
    LogSt(base, [], [], 0, {}, {}, {}, {}, 0, Between, base, [], base, base, base, base, [], 0, 0, base, [])
  }

  function Max(a: nat, b: nat): nat { if a < b then b else a }

  function Packs(l: LogSt): (ps: seq<Pack>)
    ensures |ps| == |l.packs| && forall i | 0 <= i < |ps| :: ps[i] == l.packs[i].p
  {
    seq(|l.packs|, i requires 0 <= i < |l.packs| => l.packs[i].p)
  }

  /** The blocks a pack puts on the device. */
  function Ranges(ls: seq<Logged>): set<nat>
    decreases |ls|
  {
    if ls == [] then {} else Ranges(ls[..|ls| - 1]) + Span(ls[|ls| - 1].lsid, End(ls[|ls| - 1]))
  }

  function BlocksOf(g: Geometry, p: Pack): set<nat> {
    if p.header.records == [] then {} else {p.header.lsid} + Ranges(LoggedOf(g, p))
  }

  /** The end of the last acknowledged write. */
  function AckedTo(l: LogSt): nat {
    if 0 < l.acked <= |l.writes| then End(l.writes[l.acked - 1]) else l.base
  }

  /** Requests the block layer may hand in. */
  ghost predicate Acceptable(c: Setup, b: Bio) {
    Packable(c.g, b) && !b.discard && b.pos + b.len <= c.size
  }

  /** Request the wait task is at, and its place in the log. */
  function CurBio(l: LogSt, j: nat): Bio
    requires l.nWait < |l.packs| && j < |l.packs[l.nWait].p.bios|
  {
    l.packs[l.nWait].p.bios[j]
  }

  function CurLogged(c: Setup, l: LogSt): seq<Logged>
    requires l.nWait < |l.packs|
  {
    LoggedOf(c.g, l.packs[l.nWait].p)
  }

  datatype LStep =
    | Push(b: Bio)
    | Create(n: nat, auto: bool)
    | SubmitNext
    | HeaderDone(i: nat)
    | BlocksDone(ms: set<nat>)
    | Destage(ms: set<nat>)
    | BeginFlush
    | EndFlush(k: nat)
    | BeginPack
    | InsertPending
    | MarkFua
    | StartFua
    | EndFua
    | Ack
    | FinishPack

  /** Does submitting the pack start an I/O of its own: a header write or, for a
      zero-size flush pack, a flush? */
  predicate HasHeaderIo(p: LPack) {
    p.p.header.records != [] || p.shouldFlush
  }

  /** When a step can happen. `prevWritten` is lsids.prev_written. */
  ghost predicate Enabled(c: Setup, prevWritten: nat, l: LogSt, s: LStep) {
    match s
    case Push(b) => Acceptable(c, b)
    case Create(n, _) => 0 < n <= |l.queue| && l.nSub == |l.packs| && Room(l.latest, n)
    case SubmitNext => l.nSub < |l.packs| && l.latest <= prevWritten + c.g.ring
    case HeaderDone(i) => i < l.nSub <= |l.packs| && i !in l.hdrDone && HasHeaderIo(l.packs[i])
    case BlocksDone(ms) => ms <= l.issued
    case Destage(ms) => ms <= l.done
    case BeginFlush => true
    case EndFlush(k) => k < |l.toks|
    case BeginPack => l.phase.Between? && l.nWait < l.nSub <= |l.packs|
                      && (l.nWait in l.hdrDone || !HasHeaderIo(l.packs[l.nWait]))
    case InsertPending => l.phase.Ready? && l.nWait < |l.packs| && l.phase.j < |CurLogged(c, l)|
                          && Span(CurLogged(c, l)[l.phase.j].lsid, End(CurLogged(c, l)[l.phase.j])) <= l.done
    case MarkFua => l.phase.Inserted? && l.nWait < |l.packs| && l.phase.j < |CurLogged(c, l)|
                    && CurLogged(c, l)[l.phase.j].fua
    case StartFua => l.phase.Marked?
    case EndFua => l.phase.Flushing?
    case Ack => l.nWait < |l.packs|
                && (l.phase.Flushed? || l.phase.Inserted?) && l.phase.j < |CurLogged(c, l)| <= |l.packs[l.nWait].p.bios|
                && (CurLogged(c, l)[l.phase.j].fua ==> l.phase.Flushed?)
    case FinishPack => l.phase.Ready? && l.nWait < |l.packs| && l.phase.j == |CurLogged(c, l)|
  }

  /** create_logpack_list: the packs of the batch; only the first one can carry
      the flush, and not if it contains a FUA request. */
  function NewPacks(l: LogSt, ps: seq<Pack>, isFlush: bool): (r: seq<LPack>)
    ensures |r| == |ps|
  {
    seq(|ps|, i requires 0 <= i < |ps| =>
      LPack(ps[i], i == 0 && isFlush && !ps[0].fua, Token(l.completed, l.done), |l.packs|))
  }

  function Created(c: Setup, l: LogSt, n: nat, auto: bool): LogSt
    requires n <= |l.queue| && l.latest < U64_SIZE
  {
    var st := PackAll(c.g, c.maxPb, l.latest, l.queue[..n]);
    var isFlush := st.isFlush || auto;
    l.(queue := l.queue[n..], packs := l.packs + NewPacks(l, st.packs, isFlush),
       writes := l.writes + AllLogged(c.g, st.packs), latest := st.latest,
       flush := if isFlush then Max(l.flush, l.completed) else l.flush)
  }

  /** The promises an acknowledgement makes. */
  function WithPromise(l: LogSt, b: Bio, end: nat): LogSt {
    l.(fuaPromise := if b.fua then Max(l.fuaPromise, end) else l.fuaPromise,
       flushes := if b.flush then l.flushes + [AckedFlush(b.stamp, l.nWait)] else l.flushes)
  }

  function Next(c: Setup, prevWritten: nat, l: LogSt, s: LStep): LogSt
    requires Enabled(c, prevWritten, l, s)
  {
    match s
    case Push(b) => l.(queue := l.queue + [b.(stamp := AckedTo(l))])
    case Create(n, auto) => Created(c, l, n, auto)
    case SubmitNext => l.(nSub := l.nSub + 1, issued := l.issued + BlocksOf(c.g, l.packs[l.nSub].p))
    case HeaderDone(i) =>
      var p := l.packs[i];
      l.(hdrDone := l.hdrDone + {i},
         done := if p.p.header.records == [] then l.done else l.done + {p.p.header.lsid},
         durable := if p.shouldFlush then l.durable + p.tok.snap else l.durable)
    case BlocksDone(ms) => l.(done := l.done + ms)
    case Destage(ms) => l.(durable := l.durable + ms)
    case BeginFlush => l.(toks := l.toks + [Token(l.completed, l.done)], flush := Max(l.flush, l.completed))
    case EndFlush(k) =>
      l.(durable := l.durable + l.toks[k].snap, permanent := Max(l.permanent, l.toks[k].target),
         toks := l.toks[..k] + l.toks[k + 1..])
    case BeginPack =>
      var p := l.packs[l.nWait];
      var l1 := l.(permanent := if p.shouldFlush then Max(l.permanent, p.tok.target) else l.permanent, phase := Ready(0));
      if p.p.header.records != [] then l1.(edge := p.p.header.lsid + 1)
      else if p.p.bios == [] then l1
      else WithPromise(l1, p.p.bios[0], l.base)    // the zero-size flush is acknowledged
    case InsertPending => l.(phase := Inserted(l.phase.j), edge := End(CurLogged(c, l)[l.phase.j]), inserted := l.inserted + 1)
    case MarkFua => l.(phase := Marked(l.phase.j), completed := End(CurLogged(c, l)[l.phase.j]))
    case StartFua => l.(phase := Flushing(l.phase.j, Token(l.completed, l.done)), flush := Max(l.flush, l.completed))
    case EndFua =>
      l.(phase := Flushed(l.phase.j), durable := l.durable + l.phase.tok.snap,
         permanent := Max(l.permanent, l.phase.tok.target))
    case Ack => WithPromise(l.(phase := Ready(l.phase.j + 1), acked := l.acked + 1), CurBio(l, l.phase.j),
                            End(CurLogged(c, l)[l.phase.j]))
    case FinishPack =>
      var next := NextLsid(l.packs[l.nWait].p.header);
      l.(phase := Between, completed := next, edge := next, nWait := l.nWait + 1)
  }

  // --------------------------------------------------------------- invariants

  /** Where pack `i`, or the next one to be created, starts. */
  function StartOf(l: LogSt, i: nat): nat {
    if i < |l.packs| then l.packs[i].p.header.lsid else l.latest
  }

  /** The log of a pack is complete up to here once the header and `j` requests
      are. */
  function PartEdge(g: Geometry, p: Pack, j: nat): nat {
    var ls := LoggedOf(g, p);
    if p.header.records == [] then p.header.lsid
    else if 0 < j <= |ls| then End(ls[j - 1]) else p.header.lsid + 1
  }

  ghost predicate Shape(c: Setup, l: LogSt) {
    && GoodPacks(c.g, Packs(l)) && Chained(Packs(l), l.base, l.latest)
    && l.writes == AllLogged(c.g, Packs(l)) && AllFit(WritesOf(l.writes), c.size)
    && l.nWait <= l.nSub <= |l.packs| && l.latest < U64_SIZE
    && (forall k | 0 <= k < |l.queue| :: Acceptable(c, l.queue[k]))
  }

  /** Requests in the first `n` packs. */
  function CountBefore(c: Setup, l: LogSt, n: nat): nat
    requires n <= |l.packs|
  {
    |AllLogged(c.g, Packs(l)[..n])|
  }

  /** The wait task is where the counters say. */
  ghost predicate Position(c: Setup, l: LogSt)
    requires l.nWait <= |l.packs|
  {
    var before := CountBefore(c, l, l.nWait);
    if l.phase.Between? then l.edge == StartOf(l, l.nWait) && l.acked == l.inserted == before
    else
      var j := l.phase.j;
      && l.nWait < l.nSub <= |l.packs| && j <= |CurLogged(c, l)|
      && (if l.phase.Ready? then
            l.edge == PartEdge(c.g, l.packs[l.nWait].p, j) && l.acked == l.inserted == before + j
          else
            && j < |CurLogged(c, l)|
            && l.edge == End(CurLogged(c, l)[j]) && l.acked == before + j == l.inserted - 1
            && (!l.phase.Inserted? ==> l.completed == l.edge && CurLogged(c, l)[j].fua)
            && (l.phase.Flushing? ==> l.phase.tok.target == l.edge)
            && (l.phase.Flushed? ==> l.edge <= l.permanent))
  }

  ghost predicate IssuedOk(c: Setup, l: LogSt)
    requires l.nSub <= |l.packs|
  {
    && (forall i | 0 <= i < l.nSub :: BlocksOf(c.g, l.packs[i].p) <= l.issued)
    && (forall m | m in l.issued :: exists i :: 0 <= i < l.nSub && m in BlocksOf(c.g, l.packs[i].p))
  }

  /** Every submitted block below `x` is in `s`. */
  ghost predicate Below(l: LogSt, s: set<nat>, x: nat) {
    forall m | m in l.issued && m < x :: m in s
  }

  ghost predicate TokenOk(l: LogSt, t: Token) {
    t.target <= l.flush && Below(l, t.snap, t.target)
  }

  /** Has the wait task begun with pack `i`? */
  predicate Begun(l: LogSt, i: nat) {
    i < l.nWait || (i == l.nWait && !l.phase.Between?)
  }

  ghost predicate HeadersOk(l: LogSt) {
    && (forall i | i in l.hdrDone ::
          && i < l.nSub <= |l.packs|
          && (l.packs[i].p.header.records != [] ==> l.packs[i].p.header.lsid in l.done)
          && (l.packs[i].shouldFlush ==> l.packs[i].tok.snap <= l.durable))
    && (forall i | 0 <= i < |l.packs| && Begun(l, i) && HasHeaderIo(l.packs[i]) :: i in l.hdrDone)
  }

  /** What the counters permanent <= flush <= completed stand for. */
  ghost predicate FlushOk(l: LogSt) {
    && l.base <= l.permanent <= l.flush <= l.completed <= l.edge
    && Below(l, l.done, l.edge) && Below(l, l.durable, l.permanent)
    && (forall k | 0 <= k < |l.toks| :: TokenOk(l, l.toks[k]))
    && (l.phase.Flushing? ==> TokenOk(l, l.phase.tok))
    && (forall i | 0 <= i < |l.packs| && l.packs[i].shouldFlush && !Begun(l, i) :: TokenOk(l, l.packs[i].tok))
  }

  ghost predicate Inv(c: Setup, l: LogSt) {
    Shape(c, l) && Position(c, l) && IssuedOk(c, l) && HeadersOk(l) && FlushOk(l)
  }

  // ------------------------------------------------------- geometry of blocks

  lemma {:induction false} InRanges(ls: seq<Logged>, m: nat)
    ensures m in Ranges(ls) <==> exists j :: 0 <= j < |ls| && InRange(ls[j], m)
    decreases |ls|
  {
    if ls != [] {
      var init, last := ls[..|ls| - 1], ls[|ls| - 1];
      InRanges(init, m);
      if m in Ranges(init) {
        var j :| 0 <= j < |init| && InRange(init[j], m);
        assert InRange(ls[j], m);
      } else if InRange(last, m) {
        assert InRange(ls[|ls| - 1], m);
      } else {
        forall j | 0 <= j < |ls| ensures !InRange(ls[j], m) {
          if j < |init| {
            assert !InRange(init[j], m);
          }
        }
      }
    }
  }

  lemma BlocksOfHas(g: Geometry, p: Pack, m: nat)
    ensures m in BlocksOf(g, p) <==> HasBlock(g, p, m)
  {
    InRanges(LoggedOf(g, p), m);
  }

  /** No block of a pack lies between what is complete after `j` requests and the
      next request. */
  lemma PackGap(g: Geometry, p: Pack, j: nat, m: nat)
    requires PackOk(g, p) && NoDiscards(p) && j <= |LoggedOf(g, p)|
    requires m in BlocksOf(g, p) && PartEdge(g, p, j) <= m
    ensures j < |LoggedOf(g, p)| && LoggedOf(g, p)[j].lsid <= m
  {
    hide PackOk, NoDiscards, LoggedOf;
    BlocksOfHas(g, p, m);
    var ls := LoggedOf(g, p);
    if j > 0 {
      BetweenRequests(g, p, j - 1);
    }
    var k :| 0 <= k < |ls| && InRange(ls[k], m);
    if k < j {
      if k < j - 1 {
        LoggedOrder(g, p, k, j - 1);
      }
    } else if j < k {
      LoggedOrder(g, p, j, k);
    }
  }

  // ------------------------------------------------------- where packs stand

  lemma ShapePack(c: Setup, l: LogSt, i: nat)
    requires Shape(c, l) && i < |l.packs|
    ensures PackOk(c.g, l.packs[i].p) && NoDiscards(l.packs[i].p)
    ensures l.base <= StartOf(l, i) && NextLsid(l.packs[i].p.header) == StartOf(l, i + 1) <= l.latest
    ensures StartOf(l, i) <= StartOf(l, i + 1)
  {
    hide PackOk, NoDiscards, NextLsid;
    assert Packs(l)[i] == l.packs[i].p;
    assert PackOk(c.g, Packs(l)[i]) && NoDiscards(Packs(l)[i]);
    PackStarts(Packs(l), l.base, l.latest, i);
    if i + 1 < |l.packs| {
      assert Packs(l)[i + 1] == l.packs[i + 1].p;
    }
  }

  lemma {:induction false} StartMono(c: Setup, l: LogSt, i: nat, k: nat)
    requires Shape(c, l) && i <= k <= |l.packs|
    ensures l.base <= StartOf(l, i) <= StartOf(l, k) <= l.latest
    decreases k
  {
    if i < k {
      ShapePack(c, l, k - 1);
      hide Shape;
      StartMono(c, l, i, k - 1);
    } else if i < |l.packs| {
      ShapePack(c, l, i);
    } else {
      ChainEnds(Packs(l), l.base, l.latest);
    }
  }

  lemma ChainEnds(ps: seq<Pack>, start: nat, end: nat)
    requires Chained(ps, start, end)
    ensures start <= end
  {
    if ps != [] {
      PackStarts(ps, start, end, 0);
    }
  }

  lemma BlocksAreInside(c: Setup, l: LogSt, i: nat, m: nat)
    requires Shape(c, l) && i < |l.packs| && m in BlocksOf(c.g, l.packs[i].p)
    ensures StartOf(l, i) <= m < StartOf(l, i + 1)
  {
    ShapePack(c, l, i);
    BlocksOfHas(c.g, l.packs[i].p, m);
    BlocksInside(c.g, l.packs[i].p, m);
  }

  /** A submitted block lies in some submitted pack. */
  lemma IssuedBy(c: Setup, l: LogSt, m: nat) returns (k: nat)
    requires Shape(c, l) && IssuedOk(c, l) && m in l.issued
    ensures k < l.nSub <= |l.packs| && m in BlocksOf(c.g, l.packs[k].p)
    ensures StartOf(l, k) <= m < StartOf(l, k + 1) <= StartOf(l, l.nSub)
  {
    QueueOk(c, l);
    hide Shape, BlocksOf;
    k :| 0 <= k < l.nSub && m in BlocksOf(c.g, l.packs[k].p);
    hide IssuedOk, StartOf;
    BlocksAreInside(c, l, k, m);
    StartMono(c, l, k + 1, l.nSub);
  }

  /** A submitted block belongs to the pack whose lsids surround it. */
  lemma IssuedIn(c: Setup, l: LogSt, m: nat, i: nat)
    requires Shape(c, l) && IssuedOk(c, l) && m in l.issued
    requires i < |l.packs| && StartOf(l, i) <= m < StartOf(l, i + 1)
    ensures m in BlocksOf(c.g, l.packs[i].p)
  {
    hide IssuedOk, BlocksOf;
    var k := IssuedBy(c, l, m);
    if i < k {
      StartMono(c, l, i + 1, k);
    } else if k < i {
      StartMono(c, l, k + 1, i);
    }
  }

  /** The frontier of the wait task never passes the frontier of submission. */
  lemma EdgeBound(c: Setup, l: LogSt)
    requires Shape(c, l) && Position(c, l)
    ensures l.edge <= StartOf(l, l.nSub)
    ensures l.nWait < |l.packs| ==> StartOf(l, l.nWait) <= l.edge <= StartOf(l, l.nWait + 1)
  {
    StartMono(c, l, l.nWait, l.nSub);
    if l.nWait < |l.packs| {
      ShapePack(c, l, l.nWait);
      EdgeInPack(c, l);
      if l.nWait < l.nSub {
        StartMono(c, l, l.nWait + 1, l.nSub);
      }
    }
  }

  lemma EdgeInPack(c: Setup, l: LogSt)
    requires Shape(c, l) && Position(c, l) && l.nWait < |l.packs|
    requires PackOk(c.g, l.packs[l.nWait].p) && NoDiscards(l.packs[l.nWait].p)
    ensures l.packs[l.nWait].p.header.lsid <= l.edge <= NextLsid(l.packs[l.nWait].p.header)
  {
    var p := l.packs[l.nWait].p;
    if !l.phase.Between? {
      var j := l.phase.j;
      PartInside(c.g, p, j);
      if j < |LoggedOf(c.g, p)| {
        BetweenRequests(c.g, p, j);
      }
    }
  }

  lemma PartInside(g: Geometry, p: Pack, j: nat)
    requires PackOk(g, p) && NoDiscards(p) && j <= |LoggedOf(g, p)|
    ensures p.header.lsid <= PartEdge(g, p, j) <= NextLsid(p.header)
  {
    AboutPack(g, p);
    if 0 < j {
      BetweenRequests(g, p, j - 1);
    }
  }

  // ------------------------------------------------- each step keeps the rest

  lemma BelowMono(l: LogSt, s: set<nat>, t: set<nat>, x: nat, y: nat)
    requires Below(l, s, x) && s <= t && y <= x
    ensures Below(l, t, y)
  {
  }

  lemma InitInv(c: Setup, base: u64)
    ensures Inv(c, Init(base))
  {
  }

  lemma ShapeFrame(c: Setup, l: LogSt, l2: LogSt)
    requires Shape(c, l) && l2.packs == l.packs && l2.base == l.base && l2.latest == l.latest && l2.writes == l.writes
    requires l2.nWait <= l2.nSub <= |l2.packs|
    requires forall k | 0 <= k < |l2.queue| :: Acceptable(c, l2.queue[k])
    ensures Shape(c, l2)
  {
    assert Packs(l2) == Packs(l);
    hide GoodPacks, Chained, AllLogged, AllFit, Acceptable;
  }

  lemma PositionFrame(c: Setup, l: LogSt, l2: LogSt)
    requires l.nWait <= |l.packs| && Position(c, l) && l2.packs == l.packs && l2.nWait == l.nWait && l.nSub <= l2.nSub <= |l2.packs|
    requires l2.phase == l.phase && l2.edge == l.edge && l2.acked == l.acked && l2.inserted == l.inserted
    requires l2.completed == l.completed && l2.permanent >= l.permanent && l2.latest == l.latest
    ensures Position(c, l2)
  {
    assert Packs(l2) == Packs(l);
    hide LoggedOf, AllLogged, PartEdge;
  }

  lemma IssuedFrame(c: Setup, l: LogSt, l2: LogSt)
    requires l.nSub <= |l.packs| && IssuedOk(c, l) && l2.packs == l.packs && l2.nSub == l.nSub && l2.issued == l.issued
    ensures IssuedOk(c, l2)
  {
    hide BlocksOf;
  }

  lemma HeadersFrame(l: LogSt, l2: LogSt)
    requires HeadersOk(l) && l2.packs == l.packs && l.nSub <= l2.nSub <= |l2.packs| && l2.hdrDone == l.hdrDone
    requires l.done <= l2.done && l.durable <= l2.durable
    requires forall i | 0 <= i < |l.packs| && HasHeaderIo(l.packs[i]) && Begun(l2, i) :: Begun(l, i) || i in l.hdrDone
    ensures HeadersOk(l2)
  {
  }

  lemma FlushFrame(l: LogSt, l2: LogSt)
    requires FlushOk(l) && l2.base == l.base && l2.packs == l.packs && l2.issued == l.issued
    requires l2.permanent == l.permanent && l2.flush == l.flush && l2.completed == l.completed && l2.edge == l.edge
    requires l.done <= l2.done && l.durable <= l2.durable && l2.toks == l.toks && l2.phase == l.phase && l2.nWait == l.nWait
    ensures FlushOk(l2)
  {
    assert forall t: Token {:trigger TokenOk(l, t)} :: TokenOk(l, t) ==> TokenOk(l2, t);
  }

  lemma PushInv(c: Setup, pw: nat, l: LogSt, b: Bio)
    requires Inv(c, l) && Enabled(c, pw, l, Push(b))
    ensures Inv(c, Next(c, pw, l, Push(b)))
  {
    var l2 := Next(c, pw, l, Push(b));
    AcceptStamped(c, b, AckedTo(l));
    QueueOk(c, l);
    hide Shape, Position, IssuedOk, HeadersOk, FlushOk, Acceptable, AckedTo;
    ShapeFrame(c, l, l2);
    Frames(c, l, l2);
  }

  lemma QueueOk(c: Setup, l: LogSt)
    requires Shape(c, l)
    ensures forall k | 0 <= k < |l.queue| :: Acceptable(c, l.queue[k])
    ensures l.nWait <= l.nSub <= |l.packs|
  {
  }

  /** A step that changes no counter, no pack and no phase, and only adds to
      what is complete and durable. */
  lemma Frames(c: Setup, l: LogSt, l2: LogSt)
    requires Inv(c, l) && l2.packs == l.packs && l2.nSub == l.nSub && l2.nWait == l.nWait && l2.hdrDone == l.hdrDone
    requires l2.base == l.base && l2.issued == l.issued && l.done <= l2.done && l.durable <= l2.durable
    requires l2.phase == l.phase && l2.edge == l.edge && l2.acked == l.acked && l2.inserted == l.inserted && l2.latest == l.latest
    requires l2.completed == l.completed && l2.permanent == l.permanent && l2.flush == l.flush && l2.toks == l.toks
    ensures l2.nSub <= |l2.packs| && Position(c, l2) && IssuedOk(c, l2) && HeadersOk(l2) && FlushOk(l2)
  {
    QueueOk(c, l);
    hide Shape, Position, IssuedOk, HeadersOk, FlushOk;
    PositionFrame(c, l, l2);
    IssuedFrame(c, l, l2);
    HeadersFrame(l, l2);
    FlushFrame(l, l2);
  }

  lemma AcceptStamped(c: Setup, b: Bio, stamp: nat)
    requires Acceptable(c, b)
    ensures Acceptable(c, b.(stamp := stamp))
  {
  }

  /** Blocks reach the cache or the medium. */
  lemma DeviceInv(c: Setup, pw: nat, l: LogSt, s: LStep)
    requires Inv(c, l) && Enabled(c, pw, l, s) && (s.BlocksDone? || s.Destage?)
    ensures Inv(c, Next(c, pw, l, s))
  {
    var l2 := Next(c, pw, l, s);
    QueueOk(c, l);
    ShapeFrame(c, l, l2);
    hide Shape, Position, IssuedOk, HeadersOk, FlushOk;
    Frames(c, l, l2);
  }

  lemma HeaderRecorded(c: Setup, pw: nat, l: LogSt, i: nat)
    requires HeadersOk(l) && Enabled(c, pw, l, HeaderDone(i))
    ensures HeadersOk(Next(c, pw, l, HeaderDone(i)))
  {
  }

  lemma HeaderDoneInv(c: Setup, pw: nat, l: LogSt, i: nat)
    requires Inv(c, l) && Enabled(c, pw, l, HeaderDone(i))
    ensures Inv(c, Next(c, pw, l, HeaderDone(i)))
  {
    hide Shape, Position, IssuedOk, HeadersOk, FlushOk;
    var l2 := Next(c, pw, l, HeaderDone(i));
    QueueOk(c, l);
    ShapeFrame(c, l, l2);
    PositionFrame(c, l, l2);
    IssuedFrame(c, l, l2);
    HeaderRecorded(c, pw, l, i);
    FlushFrame(l, l2);
  }

  lemma TokensStay(l: LogSt, l2: LogSt)
    requires l2.issued == l.issued && l.flush <= l2.flush
    ensures forall t: Token {:trigger TokenOk(l2, t)} :: TokenOk(l, t) ==> TokenOk(l2, t)
  {
  }

  /** Beginning a flush, by the wait task or by another one: what is complete is
      snapshotted together with completed_lsid. */
  lemma FreshToken(l: LogSt)
    requires FlushOk(l)
    ensures TokenOk(l.(flush := Max(l.flush, l.completed)), Token(l.completed, l.done))
    ensures Max(l.flush, l.completed) == l.completed
  {
    BelowMono(l, l.done, l.done, l.edge, l.completed);
  }

  lemma BeginFlushOk(l: LogSt, l2: LogSt)
    requires FlushOk(l)
    requires l2 == l.(toks := l.toks + [Token(l.completed, l.done)], flush := Max(l.flush, l.completed))
    ensures FlushOk(l2)
  {
    FreshToken(l);
    TokensStay(l, l2);
    assert TokenOk(l2, Token(l.completed, l.done));
    hide TokenOk;
  }

  lemma BeginFlushNext(c: Setup, pw: nat, l: LogSt)
    ensures Enabled(c, pw, l, BeginFlush)
    ensures Next(c, pw, l, BeginFlush) == l.(toks := l.toks + [Token(l.completed, l.done)], flush := Max(l.flush, l.completed))
  {
    hide Created, LoggedOf, BlocksOf, WithPromise, NextLsid, Max;
  }

  lemma BeginFlushInv(c: Setup, pw: nat, l: LogSt)
    requires Inv(c, l)
    ensures Enabled(c, pw, l, BeginFlush) && Inv(c, Next(c, pw, l, BeginFlush))
  {
    BeginFlushNext(c, pw, l);
    hide Shape, Position, IssuedOk, HeadersOk, FlushOk, Next, Enabled;
    var l2 := Next(c, pw, l, BeginFlush);
    BeginFlushOk(l, l2);
    BeginFlushGrows(l, l2);
    TokenFrames(c, l, l2);
  }

  lemma BeginFlushGrows(l: LogSt, l2: LogSt)
    requires l2 == l.(toks := l.toks + [Token(l.completed, l.done)], flush := Max(l.flush, l.completed))
    ensures l.durable <= l2.durable && l.permanent <= l2.permanent
    ensures l2 == l.(toks := l2.toks, flush := l2.flush, durable := l2.durable, permanent := l2.permanent)
  {
  }

  /** Ending a flush: permanent_lsid may advance to its target because all blocks
      below it have just become durable. */
  lemma FlushEnds(l: LogSt, l2: LogSt, t: Token)
    requires FlushOk(l) && TokenOk(l, t)
    requires l2.issued == l.issued && l2.durable == l.durable + t.snap && l2.permanent == Max(l.permanent, t.target)
    ensures Below(l2, l2.durable, l2.permanent) && l.permanent <= l2.permanent <= l.flush
  {
  }

  lemma EndFlushOk(l: LogSt, l2: LogSt, k: nat)
    requires FlushOk(l) && k < |l.toks|
    requires l2 == l.(durable := l.durable + l.toks[k].snap, permanent := Max(l.permanent, l.toks[k].target),
                      toks := l.toks[..k] + l.toks[k + 1..])
    ensures FlushOk(l2)
  {
    FlushEnds(l, l2, l.toks[k]);
    TokensStay(l, l2);
    hide TokenOk;
  }

  lemma EndFlushInv(c: Setup, pw: nat, l: LogSt, k: nat)
    requires Inv(c, l) && Enabled(c, pw, l, EndFlush(k))
    ensures Inv(c, Next(c, pw, l, EndFlush(k)))
  {
    hide Shape, Position, IssuedOk, HeadersOk, FlushOk;
    var l2 := Next(c, pw, l, EndFlush(k));
    EndFlushOk(l, l2, k);
    Advances(l, l2, k);
    TokenFrames(c, l, l2);
  }

  /** A flush touches only its token, what is durable and two counters. */
  lemma TokenFrames(c: Setup, l: LogSt, l2: LogSt)
    requires Inv(c, l) && l.durable <= l2.durable && l.permanent <= l2.permanent
    requires l2 == l.(toks := l2.toks, flush := l2.flush, durable := l2.durable, permanent := l2.permanent)
    ensures Shape(c, l2) && Position(c, l2) && IssuedOk(c, l2) && HeadersOk(l2)
  {
    hide Shape, Position, IssuedOk, HeadersOk, FlushOk;
    QueueOk(c, l);
    ShapeFrame(c, l, l2);
    PositionFrame(c, l, l2);
    IssuedFrame(c, l, l2);
    HeadersFrame(l, l2);
  }

  lemma Advances(l: LogSt, l2: LogSt, k: nat)
    requires k < |l.toks| && l2.permanent == Max(l.permanent, l.toks[k].target)
    ensures l2.permanent >= l.permanent
  {
  }

  // The stages of a FUA write: only the phase and the counters move.

  ghost predicate OnlyStage(l: LogSt, l2: LogSt) {
    && l2.base == l.base && l2.packs == l.packs && l2.nSub == l.nSub && l2.nWait == l.nWait && l2.hdrDone == l.hdrDone
    && l2.issued == l.issued && l2.done == l.done && l.durable <= l2.durable && l2.latest == l.latest
    && l2.writes == l.writes && l2.queue == l.queue && l2.edge == l.edge
    && l2.acked == l.acked && l2.inserted == l.inserted && !l.phase.Between? && !l2.phase.Between?
    && l2.phase.j == l.phase.j && l.permanent <= l2.permanent
    && !l2.phase.Ready? && !l2.phase.Inserted?
  }

  lemma StageFrames(c: Setup, l: LogSt, l2: LogSt)
    requires Inv(c, l) && OnlyStage(l, l2) && (l.phase.Inserted? || l.phase.Marked? || l.phase.Flushing?)
    requires l2.completed == l2.edge && l.phase.j < |CurLogged(c, l)| && CurLogged(c, l)[l.phase.j].fua
    requires l2.phase.Flushing? ==> l2.phase.tok.target == l2.edge
    requires l2.phase.Flushed? ==> l2.edge <= l2.permanent
    ensures Shape(c, l2) && Position(c, l2) && IssuedOk(c, l2) && HeadersOk(l2)
  {
    hide Shape, IssuedOk, HeadersOk, FlushOk, LoggedOf, AllLogged, PartEdge;
    QueueOk(c, l);
    ShapeFrame(c, l, l2);
    IssuedFrame(c, l, l2);
    HeadersFrame(l, l2);
    assert Packs(l2) == Packs(l);
  }

  lemma StagePosition(c: Setup, l: LogSt)
    requires l.nWait <= |l.packs| && Position(c, l) && (l.phase.Marked? || l.phase.Flushing?)
    ensures l.nWait < |l.packs| && l.phase.j < |CurLogged(c, l)| && CurLogged(c, l)[l.phase.j].fua
    ensures l.completed == l.edge && (l.phase.Flushing? ==> l.phase.tok.target == l.edge)
  {
  }

  lemma StartFuaInv(c: Setup, pw: nat, l: LogSt)
    requires Inv(c, l) && Enabled(c, pw, l, StartFua)
    ensures Inv(c, Next(c, pw, l, StartFua))
  {
    hide Shape, Position, IssuedOk, HeadersOk, FlushOk, LoggedOf;
    var l2 := Next(c, pw, l, StartFua);
    QueueOk(c, l);
    StagePosition(c, l);
    StageFrames(c, l, l2);
    StartFuaOk(l, l2);
  }

  lemma StartFuaOk(l: LogSt, l2: LogSt)
    requires FlushOk(l) && l.phase.Marked?
    requires l2 == l.(phase := Flushing(l.phase.j, Token(l.completed, l.done)), flush := Max(l.flush, l.completed))
    ensures FlushOk(l2)
  {
    FreshToken(l);
    TokensStay(l, l2);
    assert TokenOk(l2, Token(l.completed, l.done));
    hide TokenOk;
  }

  lemma EndFuaInv(c: Setup, pw: nat, l: LogSt)
    requires Inv(c, l) && Enabled(c, pw, l, EndFua)
    ensures Inv(c, Next(c, pw, l, EndFua))
  {
    hide Shape, Position, IssuedOk, HeadersOk, FlushOk, LoggedOf;
    var l2 := Next(c, pw, l, EndFua);
    QueueOk(c, l);
    StagePosition(c, l);
    StageFrames(c, l, l2);
    EndFuaOk(l, l2);
  }

  lemma EndFuaOk(l: LogSt, l2: LogSt)
    requires FlushOk(l) && l.phase.Flushing?
    requires l2 == l.(phase := Flushed(l.phase.j), durable := l.durable + l.phase.tok.snap,
                      permanent := Max(l.permanent, l.phase.tok.target))
    ensures FlushOk(l2)
  {
    FlushEnds(l, l2, l.phase.tok);
    TokensStay(l, l2);
    hide TokenOk;
  }

  lemma MarkFuaInv(c: Setup, pw: nat, l: LogSt)
    requires Inv(c, l) && Enabled(c, pw, l, MarkFua)
    ensures Inv(c, Next(c, pw, l, MarkFua))
  {
    hide Shape, Position, IssuedOk, HeadersOk, FlushOk, LoggedOf;
    var l2 := Next(c, pw, l, MarkFua);
    QueueOk(c, l);
    InsertedEdge(c, l);
    StageFrames(c, l, l2);
    MarkFuaOk(l, l2);
  }

  lemma InsertedEdge(c: Setup, l: LogSt)
    requires l.nWait <= |l.packs| && Position(c, l) && l.phase.Inserted?
    ensures l.nWait < |l.packs| && l.phase.j < |CurLogged(c, l)| && l.edge == End(CurLogged(c, l)[l.phase.j])
  {
  }

  lemma MarkFuaOk(l: LogSt, l2: LogSt)
    requires FlushOk(l) && l.phase.Inserted? && l2 == l.(phase := Marked(l.phase.j), completed := l.edge)
    ensures FlushOk(l2)
  {
    TokensStay(l, l2);
    hide TokenOk;
  }

  /** The edge moves up over blocks that are complete. */
  lemma EdgeMoves(l: LogSt, l2: LogSt)
    requires FlushOk(l) && l2.base == l.base && l2.packs == l.packs && l2.issued == l.issued && l2.done == l.done
    requires l2.durable == l.durable && l2.toks == l.toks && l2.flush == l.flush
    requires l.permanent <= l2.permanent <= l.flush && Below(l2, l2.durable, l2.permanent)
    requires l.completed <= l2.completed <= l2.edge && Below(l2, l2.done, l2.edge) && !l2.phase.Flushing?
    requires forall i | 0 <= i < |l.packs| && Begun(l, i) :: Begun(l2, i)
    ensures FlushOk(l2)
  {
    TokensStay(l, l2);
    hide TokenOk;
  }

  lemma FlushFacts(l: LogSt)
    requires FlushOk(l)
    ensures l.base <= l.permanent <= l.flush <= l.completed <= l.edge && Below(l, l.done, l.edge)
    ensures Below(l, l.durable, l.permanent)
  {
  }

  lemma InsertInv(c: Setup, pw: nat, l: LogSt)
    requires Inv(c, l) && Enabled(c, pw, l, InsertPending)
    ensures Inv(c, Next(c, pw, l, InsertPending))
  {
    hide Shape, Position, IssuedOk, HeadersOk, FlushOk, LoggedOf;
    var l2 := Next(c, pw, l, InsertPending);
    QueueOk(c, l);
    ShapeFrame(c, l, l2);
    IssuedFrame(c, l, l2);
    HeadersFrame(l, l2);
    InsertCovers(c, l, l2.edge);
    InsertPosition(c, l, l2);
    FlushFacts(l);
    EdgeMoves(l, l2);
  }

  lemma InsertPosition(c: Setup, l: LogSt, l2: LogSt)
    requires l.nWait < |l.packs| && Position(c, l) && l.phase.Ready? && l.phase.j < |CurLogged(c, l)|
    requires l2 == l.(phase := Inserted(l.phase.j), edge := End(CurLogged(c, l)[l.phase.j]), inserted := l.inserted + 1)
    ensures Position(c, l2)
  {
    assert Packs(l2) == Packs(l);
    hide LoggedOf, AllLogged, PartEdge;
  }

  /** Once the blocks of the next request are complete, all blocks up to its end are. */
  lemma InsertCovers(c: Setup, l: LogSt, x: nat)
    requires Shape(c, l) && Position(c, l) && IssuedOk(c, l) && FlushOk(l)
    requires l.phase.Ready? && l.phase.j < |CurLogged(c, l)| && x == End(CurLogged(c, l)[l.phase.j])
    requires Span(CurLogged(c, l)[l.phase.j].lsid, x) <= l.done
    ensures Below(l, l.done, x) && l.edge <= x
  {
    hide IssuedOk;
    var p, j := l.packs[l.nWait].p, l.phase.j;
    ShapePack(c, l, l.nWait);
    EdgeBound(c, l);
    hide Shape, BlocksOf;
    BetweenRequests(c.g, p, j);
    PartBefore(c.g, p, j);
    forall m | m in l.issued && m < x ensures m in l.done {
      if l.edge <= m {
        IssuedIn(c, l, m, l.nWait);
        PackGap(c.g, p, j, m);
      }
    }
  }

  lemma PartBefore(g: Geometry, p: Pack, j: nat)
    requires PackOk(g, p) && NoDiscards(p) && j < |LoggedOf(g, p)|
    ensures PartEdge(g, p, j) <= LoggedOf(g, p)[j].lsid
    ensures PartEdge(g, p, j + 1) == End(LoggedOf(g, p)[j])
  {
    AboutPack(g, p);
    BetweenRequests(g, p, j);
    if j > 0 {
      BetweenRequests(g, p, j - 1);
    }
  }

  lemma AckPosition(c: Setup, pw: nat, l: LogSt)
    requires l.nWait < |l.packs| && Position(c, l) && Enabled(c, pw, l, Ack)
    requires PartEdge(c.g, l.packs[l.nWait].p, l.phase.j + 1) == End(CurLogged(c, l)[l.phase.j])
    ensures Position(c, Next(c, pw, l, Ack)) && Next(c, pw, l, Ack).edge == l.edge
  {
    assert Packs(Next(c, pw, l, Ack)) == Packs(l);
    hide LoggedOf, AllLogged, PartEdge;
  }

  lemma AckInv(c: Setup, pw: nat, l: LogSt)
    requires Inv(c, l) && Enabled(c, pw, l, Ack)
    ensures Inv(c, Next(c, pw, l, Ack))
  {
    hide Shape, Position, IssuedOk, HeadersOk, FlushOk, LoggedOf;
    var l2 := Next(c, pw, l, Ack);
    QueueOk(c, l);
    ShapeFrame(c, l, l2);
    IssuedFrame(c, l, l2);
    HeadersFrame(l, l2);
    ShapePack(c, l, l.nWait);
    PartBefore(c.g, l.packs[l.nWait].p, l.phase.j);
    AckPosition(c, pw, l);
    FlushFacts(l);
    EdgeMoves(l, l2);
  }

  lemma CountNext(c: Setup, l: LogSt)
    requires l.nWait < |l.packs|
    ensures CountBefore(c, l, l.nWait + 1) == CountBefore(c, l, l.nWait) + |CurLogged(c, l)|
  {
    var ps, n := Packs(l), l.nWait;
    assert ps[..n + 1] == ps[..n] + [ps[n]];
    AllLoggedConcat(c.g, ps[..n], [ps[n]]);
    AllLoggedOne(c.g, ps[n]);
  }

  lemma AllLoggedOne(g: Geometry, p: Pack)
    ensures AllLogged(g, [p]) == LoggedOf(g, p)
  {
    assert AllLogged(g, [p][1..]) == [];
  }

  lemma FinishPosition(c: Setup, pw: nat, l: LogSt)
    requires l.nWait < |l.packs| && Position(c, l) && Enabled(c, pw, l, FinishPack)
    requires NextLsid(l.packs[l.nWait].p.header) == StartOf(l, l.nWait + 1)
    ensures Position(c, Next(c, pw, l, FinishPack))
  {
    CountNext(c, l);
    assert Packs(Next(c, pw, l, FinishPack)) == Packs(l);
    hide LoggedOf, AllLogged, PartEdge;
  }

  lemma FinishInv(c: Setup, pw: nat, l: LogSt)
    requires Inv(c, l) && Enabled(c, pw, l, FinishPack)
    ensures Inv(c, Next(c, pw, l, FinishPack))
  {
    hide Shape, Position, IssuedOk, HeadersOk, FlushOk, LoggedOf, NextLsid;
    var l2 := Next(c, pw, l, FinishPack);
    QueueOk(c, l);
    ReadyIsSubmitted(c, l);
    ShapeFrame(c, l, l2);
    IssuedFrame(c, l, l2);
    HeadersFrame(l, l2);
    FinishCovers(c, l, l2.edge);
    ShapePack(c, l, l.nWait);
    FinishPosition(c, pw, l);
    FlushFacts(l);
    EdgeMoves(l, l2);
  }

  lemma ReadyIsSubmitted(c: Setup, l: LogSt)
    requires l.nWait <= |l.packs| && Position(c, l) && !l.phase.Between?
    ensures l.nWait < l.nSub <= |l.packs|
  {
  }

  lemma FinishCovers(c: Setup, l: LogSt, x: nat)
    requires Shape(c, l) && Position(c, l) && IssuedOk(c, l) && FlushOk(l)
    requires l.phase.Ready? && l.phase.j == |CurLogged(c, l)| && x == NextLsid(l.packs[l.nWait].p.header)
    ensures Below(l, l.done, x) && l.edge <= x
  {
    hide IssuedOk;
    var p, j := l.packs[l.nWait].p, l.phase.j;
    ShapePack(c, l, l.nWait);
    EdgeBound(c, l);
    hide Shape, BlocksOf;
    PartInside(c.g, p, j);
    forall m | m in l.issued && m < x ensures m in l.done {
      if l.edge <= m {
        IssuedIn(c, l, m, l.nWait);
        PackGap(c.g, p, j, m);
      }
    }
  }

  lemma BeginPosition(c: Setup, pw: nat, l: LogSt)
    requires l.nWait < |l.packs| && Position(c, l) && Enabled(c, pw, l, BeginPack) && l.nSub <= |l.packs|
    requires PartEdge(c.g, l.packs[l.nWait].p, 0)
          == if l.packs[l.nWait].p.header.records == [] then l.packs[l.nWait].p.header.lsid
             else l.packs[l.nWait].p.header.lsid + 1
    ensures Position(c, Next(c, pw, l, BeginPack))
  {
    assert Packs(Next(c, pw, l, BeginPack)) == Packs(l);
    hide LoggedOf, AllLogged, PartEdge;
  }

  /** The header's I/O is complete: its block is, and if it flushed, everything
      below the flush target is durable. */
  lemma BeginCovers(c: Setup, pw: nat, l: LogSt)
    requires HeadersOk(l) && FlushOk(l) && Enabled(c, pw, l, BeginPack) && l.edge == l.packs[l.nWait].p.header.lsid
    ensures var l2 := Next(c, pw, l, BeginPack);
      && Below(l2, l2.done, l2.edge) && l.edge <= l2.edge
      && Below(l2, l2.durable, l2.permanent) && l.permanent <= l2.permanent <= l.flush
  {
    var p := l.packs[l.nWait];
    if p.shouldFlush {
      assert TokenOk(l, p.tok) && p.tok.snap <= l.durable;
    }
  }

  lemma BeginHeaders(c: Setup, pw: nat, l: LogSt)
    requires HeadersOk(l) && Enabled(c, pw, l, BeginPack)
    ensures HeadersOk(Next(c, pw, l, BeginPack))
  {
    HeadersFrame(l, Next(c, pw, l, BeginPack));
  }

  lemma BeginInv(c: Setup, pw: nat, l: LogSt)
    requires Inv(c, l) && Enabled(c, pw, l, BeginPack)
    ensures Inv(c, Next(c, pw, l, BeginPack))
  {
    hide Shape, Position, IssuedOk, HeadersOk, FlushOk, PackOk, PartEdge;
    var l2 := Next(c, pw, l, BeginPack);
    QueueOk(c, l);
    ShapeFrame(c, l, l2);
    IssuedFrame(c, l, l2);
    BeginHeaders(c, pw, l);
    ShapePack(c, l, l.nWait);
    EmptyPart(c.g, l.packs[l.nWait].p);
    BetweenEdge(c, l);
    BeginPosition(c, pw, l);
    BeginCovers(c, pw, l);
    FlushFacts(l);
    EdgeMoves(l, l2);
  }

  lemma BetweenEdge(c: Setup, l: LogSt)
    requires l.nWait < |l.packs| && Position(c, l) && l.phase.Between?
    ensures l.edge == l.packs[l.nWait].p.header.lsid
  {
  }

  lemma EmptyPart(g: Geometry, p: Pack)
    requires PackOk(g, p)
    ensures PartEdge(g, p, 0) == if p.header.records == [] then p.header.lsid else p.header.lsid + 1
  {
  }

  // ------------------------------------------------------- submit and create

  lemma SubmitIssued(c: Setup, pw: nat, l: LogSt)
    requires Shape(c, l) && IssuedOk(c, l) && Enabled(c, pw, l, SubmitNext)
    ensures IssuedOk(c, Next(c, pw, l, SubmitNext))
  {
    hide BlocksOf, Shape;
    var l2 := Next(c, pw, l, SubmitNext);
    forall m | m in l2.issued ensures exists i :: 0 <= i < l2.nSub && m in BlocksOf(c.g, l2.packs[i].p) {
      if m in l.issued {
        var i :| 0 <= i < l.nSub && m in BlocksOf(c.g, l.packs[i].p);
        assert m in BlocksOf(c.g, l2.packs[i].p);
      } else {
        assert m in BlocksOf(c.g, l2.packs[l.nSub].p);
      }
    }
  }

  /** Blocks that are submitted later lie above everything the counters speak of. */
  lemma SubmitKeepsBelow(c: Setup, pw: nat, l: LogSt, l2: LogSt)
    requires Shape(c, l) && Position(c, l) && Enabled(c, pw, l, SubmitNext) && l2 == Next(c, pw, l, SubmitNext)
    ensures forall s: set<nat>, x: nat {:trigger Below(l2, s, x)} :: x <= l.edge && Below(l, s, x) ==> Below(l2, s, x)
  {
    hide Position;
    EdgeBound(c, l);
    forall m | m in l2.issued && m !in l.issued ensures l.edge <= m {
      BlocksAreInside(c, l, l.nSub, m);
    }
  }

  lemma SubmitFlush(l: LogSt, l2: LogSt)
    requires FlushOk(l) && l2 == l.(nSub := l2.nSub, issued := l2.issued)
    requires forall s: set<nat>, x: nat {:trigger Below(l2, s, x)} :: x <= l.edge && Below(l, s, x) ==> Below(l2, s, x)
    ensures FlushOk(l2)
  {
    hide Below;
    assert forall t: Token {:trigger TokenOk(l2, t)} :: TokenOk(l, t) ==> TokenOk(l2, t);
  }

  lemma SubmitInv(c: Setup, pw: nat, l: LogSt)
    requires Inv(c, l) && Enabled(c, pw, l, SubmitNext)
    ensures Inv(c, Next(c, pw, l, SubmitNext))
  {
    hide Shape, Position, IssuedOk, HeadersOk, FlushOk;
    var l2 := Next(c, pw, l, SubmitNext);
    QueueOk(c, l);
    ShapeFrame(c, l, l2);
    PositionFrame(c, l, l2);
    SubmitIssued(c, pw, l);
    HeadersFrame(l, l2);
    SubmitKeepsBelow(c, pw, l, l2);
    SubmitFlush(l, l2);
  }

  /** What packing promises of the new packs, in the terms of the state. */
  lemma NewPacksOk(c: Setup, l: LogSt, n: nat)
    requires c.g.ring >= MAX_TOTAL_IO_SIZE && n <= |l.queue| && Room(l.latest, n)
    requires forall k | 0 <= k < |l.queue| :: Acceptable(c, l.queue[k])
    ensures l.latest < U64_SIZE
    ensures var st := PackAll(c.g, c.maxPb, l.latest, l.queue[..n]);
      && GoodPacks(c.g, st.packs) && Chained(st.packs, l.latest, st.latest) && st.latest < U64_SIZE
      && AllFit(WritesOf(AllLogged(c.g, st.packs)), c.size)
      && AllBios(st.packs) == l.queue[..n] && (n > 0 ==> st.packs != [])
      && (st.isFlush <==> exists b :: b in l.queue[..n] && b.flush && !b.fua)
  {
    var bios := l.queue[..n];
    PackAllOk(c.g, c.maxPb, l.latest, bios);
    var st := PackAll(c.g, c.maxPb, l.latest, bios);
    hide PackAll, PackOk, Chained, Packable;
    PackedGood(c.g, st.packs, bios);
    LogHoldsWrites(c.g, st.packs);
    DataWritesFit(bios, c.size);
  }

  lemma {:induction false} DataWritesFit(bios: seq<Bio>, size: nat)
    requires forall k | 0 <= k < |bios| :: ValidBio(bios[k]) && !bios[k].discard && bios[k].pos + bios[k].len <= size
    ensures AllFit(DataWrites(bios), size)
    decreases |bios|
  {
    if bios != [] {
      DataWritesFit(bios[1..], size);
      var ws, rest := DataWrites(bios), DataWrites(bios[1..]);
      forall i | 0 <= i < |ws| ensures Fits(ws[i], size) {
        if bios[0].len == 0 {
          assert ws == rest;
        } else if i > 0 {
          assert ws[i] == rest[i - 1];
        }
      }
    }
  }

  lemma ChainJoin(a: seq<Pack>, b: seq<Pack>, start: nat, mid: nat, end: nat)
    requires Chained(a, start, mid) && Chained(b, mid, end)
    ensures Chained(a + b, start, end)
  {
  }

  lemma CreatedPacks(c: Setup, pw: nat, l: LogSt, n: nat, auto: bool)
    requires Enabled(c, pw, l, Create(n, auto)) && l.latest < U64_SIZE
    ensures var l2, st := Next(c, pw, l, Create(n, auto)), PackAll(c.g, c.maxPb, l.latest, l.queue[..n]);
      && Packs(l2) == Packs(l) + st.packs
      && |l2.packs| == |l.packs| + |st.packs| && l2.packs[..|l.packs|] == l.packs
      && (forall i | 0 <= i < |l.packs| :: l2.packs[i] == l.packs[i])
      && l2.writes == l.writes + AllLogged(c.g, st.packs) && l2.latest == st.latest
      && l2 == l.(queue := l.queue[n..], packs := l2.packs, writes := l2.writes, latest := l2.latest, flush := l2.flush)
  {
    hide PackAll, AllLogged;
  }

  lemma GoodJoin(g: Geometry, a: seq<Pack>, b: seq<Pack>)
    requires GoodPacks(g, a) && GoodPacks(g, b)
    ensures GoodPacks(g, a + b)
  {
    hide PackOk, NoDiscards;
  }

  lemma QueueRest(c: Setup, q: seq<Bio>, n: nat)
    requires n <= |q| && forall k | 0 <= k < |q| :: Acceptable(c, q[k])
    ensures forall k | 0 <= k < |q[n..]| :: Acceptable(c, q[n..][k])
  {
    hide Acceptable;
  }

  /** Appending good packs, chained to what is there, keeps the shape. */
  lemma ShapeJoin(c: Setup, l: LogSt, l2: LogSt, ps: seq<Pack>)
    requires Shape(c, l) && Packs(l2) == Packs(l) + ps && l2.base == l.base && l2.nWait == l.nWait && l2.nSub == l.nSub
    requires GoodPacks(c.g, ps) && Chained(ps, l.latest, l2.latest) && l2.latest < U64_SIZE
    requires AllFit(WritesOf(AllLogged(c.g, ps)), c.size) && l2.writes == l.writes + AllLogged(c.g, ps)
    requires forall k | 0 <= k < |l2.queue| :: Acceptable(c, l2.queue[k])
    ensures Shape(c, l2)
  {
    hide GoodPacks, Chained, AllLogged, AllFit, Acceptable;
    AllLoggedConcat(c.g, Packs(l), ps);
    ChainJoin(Packs(l), ps, l.base, l.latest, l2.latest);
    FitJoin(l.writes, AllLogged(c.g, ps), c.size);
    GoodJoin(c.g, Packs(l), ps);
  }

  lemma CreateShape(c: Setup, pw: nat, l: LogSt, n: nat, auto: bool)
    requires c.g.ring >= MAX_TOTAL_IO_SIZE && Shape(c, l) && Enabled(c, pw, l, Create(n, auto))
    ensures Shape(c, Next(c, pw, l, Create(n, auto)))
  {
    CreateEnabled(c, pw, l, n, auto);
    hide Enabled;
    QueueOk(c, l);
    hide Shape, PackAll, GoodPacks, Chained, AllLogged, AllFit, Acceptable, Room, WritesOf, AllBios;
    NewPacksOk(c, l, n);
    CreatedPacks(c, pw, l, n, auto);
    hide Next;
    QueueRest(c, l.queue, n);
    ShapeJoin(c, l, Next(c, pw, l, Create(n, auto)), PackAll(c.g, c.maxPb, l.latest, l.queue[..n]).packs);
  }

  lemma CreateEnabled(c: Setup, pw: nat, l: LogSt, n: nat, auto: bool)
    requires Enabled(c, pw, l, Create(n, auto))
    ensures 0 < n <= |l.queue| && l.nSub == |l.packs| && Room(l.latest, n)
  {
    hide Room;
  }

  lemma FitJoin(a: seq<Logged>, b: seq<Logged>, n: nat)
    requires AllFit(WritesOf(a), n) && AllFit(WritesOf(b), n)
    ensures AllFit(WritesOf(a + b), n)
  {
    forall i | 0 <= i < |a + b| ensures Fits(WritesOf(a + b)[i], n) {
      if i < |a| {
        assert WritesOf(a + b)[i] == WritesOf(a)[i];
      } else {
        assert WritesOf(a + b)[i] == WritesOf(b)[i - |a|];
      }
    }
  }

  lemma CreateCount(c: Setup, l: LogSt, l2: LogSt, n: nat)
    requires n <= |l.packs| <= |l2.packs| && (forall i | 0 <= i < |l.packs| :: l2.packs[i] == l.packs[i])
    ensures CountBefore(c, l2, n) == CountBefore(c, l, n)
  {
    hide AllLogged;
    assert Packs(l2)[..n] == Packs(l)[..n];
  }

  lemma CreatePosition(c: Setup, l: LogSt, l2: LogSt)
    requires l.nWait <= l.nSub == |l.packs| <= |l2.packs| && Position(c, l)
    requires l2 == l.(queue := l2.queue, packs := l2.packs, writes := l2.writes, latest := l2.latest, flush := l2.flush)
    requires (forall i | 0 <= i < |l.packs| :: l2.packs[i] == l.packs[i])
    requires StartOf(l2, |l.packs|) == l.latest
    ensures Position(c, l2)
  {
    hide LoggedOf, PartEdge, CountBefore, AllLogged;
    CreateCount(c, l, l2, l.nWait);
    if !l.phase.Between? {
      assert l2.packs[l.nWait] == l.packs[l.nWait];
      assert CurLogged(c, l2) == CurLogged(c, l);
      hide CurLogged;
    }
  }

  lemma CreateStart(c: Setup, l: LogSt, l2: LogSt, ps: seq<Pack>)
    requires Packs(l2) == Packs(l) + ps && Chained(ps, l.latest, l2.latest)
    ensures StartOf(l2, |l.packs|) == l.latest
  {
    if ps != [] {
      assert Packs(l2)[|l.packs|] == ps[0];
    }
  }

  lemma CreateIssued(c: Setup, l: LogSt, l2: LogSt)
    requires l.nSub <= |l.packs| <= |l2.packs| && IssuedOk(c, l) && l2.nSub == l.nSub && l2.issued == l.issued
    requires (forall i | 0 <= i < |l.packs| :: l2.packs[i] == l.packs[i])
    ensures IssuedOk(c, l2)
  {
    hide BlocksOf;
    forall m | m in l2.issued ensures exists i :: 0 <= i < l2.nSub && m in BlocksOf(c.g, l2.packs[i].p) {
      var i :| 0 <= i < l.nSub && m in BlocksOf(c.g, l.packs[i].p);
      assert m in BlocksOf(c.g, l2.packs[i].p);
    }
  }

  lemma CreateHeaders(l: LogSt, l2: LogSt)
    requires HeadersOk(l) && l.nWait <= l.nSub == |l.packs| <= |l2.packs| && (l.nWait == |l.packs| ==> l.phase.Between?)
    requires l2 == l.(queue := l2.queue, packs := l2.packs, writes := l2.writes, latest := l2.latest, flush := l2.flush)
    requires (forall i | 0 <= i < |l.packs| :: l2.packs[i] == l.packs[i])
    ensures HeadersOk(l2)
  {
  }

  lemma CreateFlush(c: Setup, pw: nat, l: LogSt, n: nat, auto: bool)
    requires FlushOk(l) && Enabled(c, pw, l, Create(n, auto)) && l.latest < U64_SIZE
    ensures FlushOk(Next(c, pw, l, Create(n, auto)))
  {
    var l2 := Next(c, pw, l, Create(n, auto));
    var st := PackAll(c.g, c.maxPb, l.latest, l.queue[..n]);
    CreatedPacks(c, pw, l, n, auto);
    FreshToken(l);
    TokensStay(l, l2);
    hide PackAll, AllLogged, TokenOk;
    forall i | 0 <= i < |l2.packs| && l2.packs[i].shouldFlush && !Begun(l2, i) ensures TokenOk(l2, l2.packs[i].tok) {
      if |l.packs| <= i {
        assert l2.packs[i] == NewPacks(l, st.packs, st.isFlush || auto)[i - |l.packs|];
        assert l2.flush == Max(l.flush, l.completed);
        SameToken(l, l2, Token(l.completed, l.done));
      }
    }
  }

  lemma SameToken(l: LogSt, l2: LogSt, t: Token)
    requires TokenOk(l.(flush := Max(l.flush, l.completed)), t) && l2.issued == l.issued && l2.flush == Max(l.flush, l.completed)
    ensures TokenOk(l2, t)
  {
  }

  lemma CreateInv(c: Setup, pw: nat, l: LogSt, n: nat, auto: bool)
    requires c.g.ring >= MAX_TOTAL_IO_SIZE && Inv(c, l) && Enabled(c, pw, l, Create(n, auto))
    ensures Inv(c, Next(c, pw, l, Create(n, auto)))
  {
    hide Shape, Position, IssuedOk, HeadersOk, FlushOk, PackAll, AllLogged;
    QueueOk(c, l);
    NewPacksOk(c, l, n);
    CreatedPacks(c, pw, l, n, auto);
    var l2, st := Next(c, pw, l, Create(n, auto)), PackAll(c.g, c.maxPb, l.latest, l.queue[..n]);
    CreateShape(c, pw, l, n, auto);
    CreateStart(c, l, l2, st.packs);
    CreatePosition(c, l, l2);
    CreateIssued(c, l, l2);
    WaitInside(c, l);
    CreateHeaders(l, l2);
    CreateFlush(c, pw, l, n, auto);
  }

  lemma WaitInside(c: Setup, l: LogSt)
    requires l.nWait <= |l.packs| && Position(c, l)
    ensures l.nWait == |l.packs| ==> l.phase.Between?
  {
  }

  /** Every step of every task keeps the invariant. */
  lemma StepInv(c: Setup, pw: nat, l: LogSt, s: LStep)
    requires c.g.ring >= MAX_TOTAL_IO_SIZE && Inv(c, l) && Enabled(c, pw, l, s)
    ensures Inv(c, Next(c, pw, l, s))
  {
    hide Inv, Next, Enabled;
    match s
    case Push(b) => PushInv(c, pw, l, b);
    case Create(n, auto) => CreateInv(c, pw, l, n, auto);
    case SubmitNext => SubmitInv(c, pw, l);
    case HeaderDone(i) => HeaderDoneInv(c, pw, l, i);
    case BlocksDone(_) => DeviceInv(c, pw, l, s);
    case Destage(_) => DeviceInv(c, pw, l, s);
    case BeginFlush => BeginFlushInv(c, pw, l);
    case EndFlush(k) => EndFlushInv(c, pw, l, k);
    case BeginPack => BeginInv(c, pw, l);
    case InsertPending => InsertInv(c, pw, l);
    case MarkFua => MarkFuaInv(c, pw, l);
    case StartFua => StartFuaInv(c, pw, l);
    case EndFua => EndFuaInv(c, pw, l);
    case Ack => AckInv(c, pw, l);
    case FinishPack => FinishInv(c, pw, l);
  }
}
