/** What becomes of the requests that are handed in: their order, what is promised when
    they are acknowledged, and that each can be served. */
module Requests {
  import opened Words
  import opened LogRecord
  import opened Logpack
  import opened WritePack
  import opened Disk
  import opened LogDevice
  import opened RoundTrip
  import opened Recovery
  import opened Submit
  import opened LogSide
  import opened Promises
  import opened DataSide
  import opened Pipeline
  import opened Crash
  import opened Runs
  import opened Reads
  import opened DataProgress
  import opened Progress

  // ------------------------------------------------------------ order of arrival

  /** All requests handed in so far: those in packs, then those in the queue. */
  function Arrived(l: LogSt): seq<Bio> {
    AllBios(Packs(l)) + l.queue
  }

  lemma {:induction false} BiosConcat(a: seq<Pack>, b: seq<Pack>)
    ensures AllBios(a + b) == AllBios(a) + AllBios(b)
    decreases |b|
  {
    if b == [] {
      assert a + b == a;
    } else {
      var ab := a + b;
      assert ab[..|ab| - 1] == a + b[..|b| - 1];
      BiosConcat(a, b[..|b| - 1]);
    }
  }

  /** The packs of a batch hold what is taken off the queue. */
  lemma BatchBios(c: Setup, l: LogSt, n: nat)
    requires c.g.ring >= MAX_TOTAL_IO_SIZE && Shape(c, l) && n <= |l.queue| && Room(l.latest, n)
    ensures l.latest < U64_SIZE && AllBios(PackAll(c.g, c.maxPb, l.latest, l.queue[..n]).packs) == l.queue[..n]
  {
    QueueOk(c, l);
    hide Shape, PackAll, GoodPacks, Chained, AllLogged, AllFit, Acceptable, Room, WritesOf, AllBios, Packs;
    NewPacksOk(c, l, n);
  }

  lemma ArrivedSame(l: LogSt, l2: LogSt, ps: seq<Pack>, n: nat)
    requires n <= |l.queue| && Packs(l2) == Packs(l) + ps && AllBios(ps) == l.queue[..n] && l2.queue == l.queue[n..]
    ensures Arrived(l2) == Arrived(l) && AllBios(Packs(l2)) == AllBios(Packs(l)) + l.queue[..n]
  {
    hide AllBios, Packs;
    BiosConcat(Packs(l), ps);
    assert l.queue == l.queue[..n] + l.queue[n..];
  }

  lemma CreateArrived(c: Setup, pw: nat, l: LogSt, n: nat, auto: bool)
    requires c.g.ring >= MAX_TOTAL_IO_SIZE && Shape(c, l) && Enabled(c, pw, l, Create(n, auto))
    ensures Arrived(Next(c, pw, l, Create(n, auto))) == Arrived(l)
    ensures AllBios(Packs(Next(c, pw, l, Create(n, auto)))) == AllBios(Packs(l)) + l.queue[..n]
  {
    hide Shape, PackAll, AllLogged, Room, Enabled, Next, AllBios, Packs, Arrived;
    CreateEnabled(c, pw, l, n, auto);
    BatchBios(c, l, n);
    CreatedPacks(c, pw, l, n, auto);
    ArrivedSame(l, Next(c, pw, l, Create(n, auto)), PackAll(c.g, c.maxPb, l.latest, l.queue[..n]).packs, n);
  }

  lemma OtherArrived(c: Setup, pw: nat, l: LogSt, t: LStep)
    requires Enabled(c, pw, l, t) && !t.Create?
    ensures var l2 := Next(c, pw, l, t);
      && Packs(l2) == Packs(l)
      && Arrived(l2) == if t.Push? then Arrived(l) + [t.b.(stamp := AckedTo(l))] else Arrived(l)
  {
    hide LoggedOf, BlocksOf, Acceptable, AllBios, HasHeaderIo;
  }

  /** A request that is handed in goes behind all others; no other step loses, adds
      or moves any. */
  lemma StepArrived(c: Setup, s: St, p: PStep)
    requires c.g.ring >= MAX_TOTAL_IO_SIZE && PInv(c, s) && Can(c, s, p)
    ensures Arrived(Do(c, s, p).l)
         == if p.Log? && p.s.Push? then Arrived(s.l) + [p.s.b.(stamp := AckedTo(s.l))] else Arrived(s.l)
  {
    hide PInv, Inv, Shape, Promised, DInv, GcOk, SyncOk, RingOk, Enabled, Next, DEnabled, DNext, AllBios, Packs;
    PInvParts(c, s);
    if p.Log? {
      if p.s.Create? {
        CreateArrived(c, s.prevWritten, s.l, p.s.n, p.s.auto);
      } else {
        OtherArrived(c, s.prevWritten, s.l, p.s);
      }
    }
  }

  lemma PrefixPlus<T>(a: seq<T>, b: seq<T>, x: T)
    requires a <= b
    ensures a <= b + [x]
  {
  }

  lemma {:induction false} RunArrived(c: Setup, base: u64, run: seq<St>, i: nat, j: nat)
    requires c.g.ring >= MAX_TOTAL_IO_SIZE && Run(c, base, run) && i <= j < |run|
    ensures Arrived(run[i].l) <= Arrived(run[j].l)
    decreases j
  {
    hide Can, Do, PInv, Arrived;
    if i < j {
      RunArrived(c, base, run, i, j - 1);
      RunInv(c, base, run, j - 1);
      assert OneStep(c, run[j - 1], run[j]);
      var p :| Follows(c, run[j - 1], run[j], p);
      StepArrived(c, run[j - 1], p);
      if p.Log? && p.s.Push? {
        PrefixPlus(Arrived(run[i].l), Arrived(run[j - 1].l), p.s.b.(stamp := AckedTo(run[j - 1].l)));
      }
    }
  }

  lemma {:induction false} DataPrefix(a: seq<Bio>, b: seq<Bio>)
    ensures DataWrites(a) <= DataWrites(a + b)
  {
    DataWritesConcat(a, b);
  }

  lemma GoodOk(g: Geometry, ps: seq<Pack>)
    requires GoodPacks(g, ps)
    ensures forall i | 0 <= i < |ps| :: PackOk(g, ps[i])
  {
    hide PackOk, NoDiscards;
  }

  lemma LogIsArrival(c: Setup, l: LogSt)
    requires Shape(c, l)
    ensures WritesOf(l.writes) == DataWrites(AllBios(Packs(l)))
  {
    ShapeFacts(c, l);
    hide Shape, GoodPacks, Chained, AllLogged, AllFit, DataWrites, AllBios, WritesOf, Packs;
    GoodOk(c.g, Packs(l));
    LogHoldsWrites(c.g, Packs(l));
  }

  /** In every run requests are never lost or reordered: what has arrived stays, in
      its order, and the log holds the writes of the first ones, in that order. */
  lemma EveryRunKeepsOrder(c: Setup, base: u64, run: seq<St>, i: nat, j: nat)
    requires c.g.ring >= MAX_TOTAL_IO_SIZE && Run(c, base, run) && i <= j < |run|
    ensures Arrived(run[i].l) <= Arrived(run[j].l)
    ensures WritesOf(run[j].l.writes) <= DataWrites(Arrived(run[j].l))
    ensures run[j].l.queue == [] ==> WritesOf(run[j].l.writes) == DataWrites(Arrived(run[j].l))
  {
    RunArrived(c, base, run, i, j);
    RunInv(c, base, run, j);
    PInvParts(c, run[j]);
    hide PInv, Inv, Shape, Promised, DInv, GcOk, SyncOk, RingOk, DataWrites, AllBios, WritesOf, Packs, Run;
    LogIsArrival(c, run[j].l);
    DataPrefix(AllBios(Packs(run[j].l)), run[j].l.queue);
    if run[j].l.queue == [] {
      assert AllBios(Packs(run[j].l)) + [] == AllBios(Packs(run[j].l));
    }
  }

  // ------------------------------------------------------- every request is served

  /** A single request becomes a single pack. */
  lemma OnePack(g: Geometry, maxPb: nat, latest: u64, b: Bio)
    requires Packable(g, b) && g.ring >= MAX_TOTAL_IO_SIZE && latest + U16_SIZE < U64_SIZE
    ensures var st := PackAll(g, maxPb, latest, [b]);
      |st.packs| == 1 && st.packs[0].header.lsid == latest && st.latest <= latest + U16_SIZE
  {
    FirstBioOk(g, latest, b);
    var h := AddBio(g, EmptyHeader(latest), b).0;
    PackLayout(g, Pack(h, [b], false, b.fua));
    NextIsExact(g, h);
    assert [b][..0] == [];
    var e := PackPrefix(g, maxPb, latest, []);
    assert PackPrefix(g, maxPb, latest, [b]) == AddToPacking(g, maxPb, e, b) by {
      assert [b][..|[b]| - 1] == [];
    }
    hide AddBio;
  }

  lemma PackLayout(g: Geometry, p: Pack)
    requires PackOk(g, p)
    ensures Layout(g, p.header)
  {
  }

  lemma AcceptablePackable(c: Setup, b: Bio)
    requires Acceptable(c, b)
    ensures Packable(c.g, b)
  {
  }

  /** The next request in the queue is packed, and its pack fits into the ring. */
  lemma CreateOne(c: Setup, pw: nat, l: LogSt)
    requires c.g.ring > MAX_TOTAL_IO_SIZE && Shape(c, l) && l.queue != [] && l.nSub == |l.packs| && Room(l.latest, 1)
    ensures Enabled(c, pw, l, Create(1, false))
    ensures var l2 := Next(c, pw, l, Create(1, false));
      FitsRing(c, l2) && l2.queue == l.queue[1..] && l2.latest <= l.latest + U16_SIZE
  {
    QueueOk(c, l);
    hide Shape, PackAll, AllLogged, Acceptable;
    CreatedPacks(c, pw, l, 1, false);
    assert l.queue[..1] == [l.queue[0]];
    AcceptablePackable(c, l.queue[0]);
    hide Packable, Enabled, Next;
    OnePack(c.g, c.maxPb, l.latest, l.queue[0]);
    var l2 := Next(c, pw, l, Create(1, false));
    assert l2.packs[|l.packs|].p == Packs(l2)[|l.packs|];
  }

  /** The queue's lsids stay within 64 bits. */
  ghost predicate QueueRoom(l: LogSt) {
    Room(l.latest, |l.queue| + 1)
  }

  /** Everything is through, and nobody waits. */
  ghost predicate AllServed(c: Setup, s: St) {
    AllThrough(c, s) && s.l.queue == []
  }

  lemma ThroughReady(c: Setup, s: St)
    requires AllThrough(c, s)
    ensures s.l.nSub == |s.l.packs|
  {
  }

  lemma RoomNext(l: LogSt, l2: LogSt)
    requires QueueRoom(l) && l.queue != [] && l2.queue == l.queue[1..] && l2.latest <= l.latest + U16_SIZE
    ensures QueueRoom(l2) && Room(l.latest, 1)
  {
  }

  lemma SamePacksQueue(l: LogSt, l2: LogSt)
    requires SamePacks(l, l2)
    ensures l2.queue == l.queue && l2.latest == l.latest && Arrived(l2) == Arrived(l)
  {
    assert Packs(l2) == Packs(l);
    hide AllBios;
  }

  /** One request is packed and brought through. */
  lemma OneServed(c: Setup, s0: St, s: St) returns (s2: St)
    requires c.g.ring > MAX_TOTAL_IO_SIZE && Leads(c, s0, s) && Sane(c, s) && AllThrough(c, s)
    requires s.l.queue != [] && QueueRoom(s.l)
    ensures Leads(c, s0, s2) && Sane(c, s2) && AllThrough(c, s2) && QueueRoom(s2.l)
    ensures s2.l.queue == s.l.queue[1..] && Arrived(s2.l) == Arrived(s.l)
  {
    hide Leads, Sane, AllThrough, Shape, Enabled, Next, QueueRoom, Room, SamePacks, FitsRing, Arrived;
    SaneShape(c, s);
    ThroughReady(c, s);
    var t := Create(1, false);
    assert Room(s.l.latest, 1) by {
      RoomNext(s.l, s.l.(queue := s.l.queue[1..]));
    }
    CreateOne(c, s.prevWritten, s.l);
    CreateArrived(c, s.prevWritten, s.l, 1, false);
    var s1 := Do(c, s, Log(t));
    StepOn(c, s0, s, Log(t));
    RoomNext(s.l, s1.l);
    s2 := PacksEnd(c, s0, s1);
    SamePacksQueue(s1.l, s2.l);
    assert QueueRoom(s2.l) by {
      RoomSame(s1.l, s2.l);
    }
  }

  lemma RoomSame(l: LogSt, l2: LogSt)
    requires QueueRoom(l) && l2.queue == l.queue && l2.latest == l.latest
    ensures QueueRoom(l2)
  {
  }

  lemma {:induction false} QueueEnds(c: Setup, s0: St, s: St) returns (s2: St)
    requires c.g.ring > MAX_TOTAL_IO_SIZE && Leads(c, s0, s) && Sane(c, s) && AllThrough(c, s) && QueueRoom(s.l)
    ensures Leads(c, s0, s2) && Sane(c, s2) && AllServed(c, s2) && Arrived(s2.l) == Arrived(s.l)
    decreases |s.l.queue|
  {
    hide Leads, Sane, AllThrough, QueueRoom, Arrived;
    s2 := s;
    if s.l.queue != [] {
      s2 := OneServed(c, s0, s);
      s2 := QueueEnds(c, s0, s2);
    }
  }

  /** All that is served is in the log, in the order it arrived, and on the data
      device: sector for sector what these writes, one after the other, leave. */
  ghost predicate Served(c: Setup, s: St, bios: seq<Bio>) {
    && AllServed(c, s) && WritesOf(s.l.writes) == DataWrites(bios)
    && forall d0: Image {:trigger After(d0, s.l.writes, s.d.hits)} ::
         |d0| == c.size ==> After(d0, s.l.writes, s.d.hits) == Apply(d0, DataWrites(bios))
  }

  /** The run can go on until every request handed in so far is served. */
  ghost predicate ServesAll(c: Setup, base: u64, run: seq<St>, more: seq<St>) {
    Continues(c, base, run, more) && Served(c, more[|more| - 1], Arrived(run[|run| - 1].l))
  }

  lemma {:induction false} NonePendingNewest(ls: seq<Logged>, n: nat, x: nat)
    requires n <= |ls|
    ensures Newest(ls, {}, n, x) < 0
    decreases n
  {
    if n > 0 {
      NonePendingNewest(ls, n - 1, x);
    }
  }

  lemma AllIn(ls: seq<Logged>)
    ensures WritesIn(ls, |ls|) == WritesOf(ls)
  {
  }

  /** With nothing pending the device itself shows all writes. */
  lemma DeviceShows(c: Setup, s: St, d0: Image)
    requires PInv(c, s) && s.d.pending == {} && s.l.acked == |s.l.writes| && |d0| == c.size
    ensures After(d0, s.l.writes, s.d.hits) == Apply(d0, WritesOf(s.l.writes))
  {
    PInvParts(c, s);
    hide PInv, Inv, Shape, Promised, DInv, GcOk, SyncOk, RingOk, View, Apply, After, LoggedFit;
    InvAcked(c, s.l);
    AllWritesFit(c, s.l);
    AllIn(s.l.writes);
    forall x | 0 <= x < |d0| ensures After(d0, s.l.writes, s.d.hits)[x] == Apply(d0, WritesOf(s.l.writes))[x] {
      ReadsSeeAllWrites(d0, EnvOf(s.l), s.d, x);
      NonePendingNewest(s.l.writes, |s.l.writes|, x);
      assert View(d0, EnvOf(s.l), s.d, x) == After(d0, s.l.writes, s.d.hits)[x] by {
        ViewIsDevice(d0, EnvOf(s.l), s.d, x);
      }
    }
  }

  lemma ViewIsDevice(d0: Image, e: Env, d: DataSt, x: nat)
    requires x < |d0| && e.inserted <= |e.ls| && Newest(e.ls, d.pending, e.inserted, x) < 0
    ensures View(d0, e, d, x) == After(d0, e.ls, d.hits)[x]
  {
    hide Newest, After;
  }

  lemma ServedIsRight(c: Setup, s: St)
    requires Sane(c, s) && AllServed(c, s)
    ensures Served(c, s, Arrived(s.l))
  {
    SaneShape(c, s);
    SaneInv(c, s);
    LogIsArrival(c, s.l);
    hide Sane, PInv, Shape, After, Apply, AllBios, Packs, DataWrites, WritesOf;
    assert Arrived(s.l) == AllBios(Packs(s.l));
    forall d0: Image {:trigger After(d0, s.l.writes, s.d.hits)} | |d0| == c.size
      ensures After(d0, s.l.writes, s.d.hits) == Apply(d0, DataWrites(Arrived(s.l)))
    {
      DeviceShows(c, s, d0);
    }
  }

  lemma SaneInv(c: Setup, s: St)
    requires Sane(c, s)
    ensures PInv(c, s)
  {
  }

  lemma RunServes(c: Setup, base: u64, run: seq<St>) returns (more: seq<St>)
    requires c.g.ring > MAX_TOTAL_IO_SIZE && run != [] && Run(c, base, run)
    requires FitsRing(c, run[|run| - 1].l) && QueueRoom(run[|run| - 1].l)
    ensures ServesAll(c, base, run, more)
  {
    hide Run, Sane, Leads, FitsRing, AllThrough, SamePacks, Continues, QueueRoom, Room, Arrived, Served;
    var s := run[|run| - 1];
    RunSane(c, base, run, |run| - 1);
    LeadsSelf(c, s);
    var s1 := PacksEnd(c, s, s);
    SamePacksQueue(s.l, s1.l);
    RoomSame(s.l, s1.l);
    var s2 := QueueEnds(c, s, s1);
    ServedIsRight(c, s2);
    more := LeadsOn(c, base, run, s2);
  }

  /** Every request is served. From the last state of any run some continuation
      brings every request handed in so far through, if and only if what is created
      but not submitted yet is no longer than the ring; the log then holds them all
      in the order they came, and the data device what they make of it. */
  lemma EveryRunServes(c: Setup, base: u64, run: seq<St>)
    requires c.g.ring > MAX_TOTAL_IO_SIZE && run != [] && Run(c, base, run) && QueueRoom(run[|run| - 1].l)
    ensures (exists more :: ServesAll(c, base, run, more)) <==> FitsRing(c, run[|run| - 1].l)
  {
    hide Run, FitsRing, AllThrough, Continues, QueueRoom, Room, Arrived;
    if FitsRing(c, run[|run| - 1].l) {
      var more := RunServes(c, base, run);
    }
    forall more | ServesAll(c, base, run, more) ensures EndsWell(c, base, run, more) {
    }
    EveryRunCanEnd(c, base, run);
  }
}
