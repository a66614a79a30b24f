/** The data half of the write pipeline of module/io.c: acknowledged writes wait
    for their log to be permanent, are serialised where they overlap, reach the
    data device sector by sector, and leave the pending data. */
module DataSide {
  import opened Words
  import opened Disk
  import opened LogDevice
  import opened Overlapped

  /** A sector of write `k` reaching the data device. */
  datatype Hit = Hit(x: nat, k: nat)

  /** Where task_submit_bio_wrapper_list stands with its current batch: waiting for
      the log, in the loop over the overlap map, in the loop that submits. */
  datatype Stage = Idle | Checking | Inserting | Submitting

  /** Writes are named by their place in the log order. */
  datatype DataSt = DataSt(
    taken: nat,            // taken from datapack_submit_queue
    batch: nat,            // of these, put into datapack_wait_queue
    stage: Stage,
    q: seq<Entry>,         // the overlap map, in the order of insertion
    olDel: nat,            // writes deleted from it
    list: seq<nat>,        // biow_list_sorted: writes of the batch still to be sent by the submit task
    submitted: set<nat>,   // writes sent to the data device
    log: seq<nat>,         // the calls of submit_write_bio_wrapper, in order
    finished: set<nat>,    // writes whose data I/O is complete
    notify: set<nat>,      // released writes the wait task is about to submit
    gone: nat,             // writes through the wait task
    pending: set<nat>,     // the pending data
    hits: seq<Hit>)

  function InitData(): DataSt {
    DataSt(0, 0, Idle, [], 0, [], {}, [], {}, {}, 0, {}, [])
  }

  /** Writes that ever entered the overlap map. */
  function OlIns(d: DataSt): nat { d.olDel + |d.q| }

  /** What the data side sees of the log side. */
  datatype Env = Env(ls: seq<Logged>, inserted: nat, acked: nat, permanent: nat)

  ghost predicate Reached(hits: seq<Hit>, x: nat, k: nat) {
    exists a :: 0 <= a < |hits| && hits[a] == Hit(x, k)
  }

  datatype DStep =
    | Take(n: nat)
    | Permanent
    | OlInsert
    | Sort(xs: seq<nat>)
    | DirectSubmit
    | Enqueue
    | HitSector(k: nat, x: nat)
    | IoDone(k: nat)
    | OlDelete
    | NotifySubmit(k: nat)
    | PendDelete

  ghost predicate DEnabled(e: Env, d: DataSt, s: DStep) {
    match s
    case Take(n) => d.stage.Idle? && 0 < n && d.taken + n <= e.acked
    case Permanent => d.stage.Checking? && 0 < d.taken <= |e.ls| && End(e.ls[d.taken - 1]) <= e.permanent
    case OlInsert => d.stage.Inserting? && OlIns(d) < d.taken && OlIns(d) < |e.ls|
    case Sort(xs) => d.stage.Inserting? && OlIns(d) == d.taken && multiset(xs) == multiset(Direct(d, |d.q|))
    case DirectSubmit => d.stage.Submitting? && d.list != []
    case Enqueue => d.stage.Submitting? && d.list == []
    case HitSector(k, x) => k in d.submitted && k !in d.finished && k < |e.ls| && Covers(e.ls[k].w, x) && !Reached(d.hits, x, k)
    case IoDone(k) => k in d.submitted && k !in d.finished && k < |e.ls|
                      && forall x: nat | Covers(e.ls[k].w, x) :: Reached(d.hits, x, k)
    case OlDelete => d.olDel == d.gone < d.batch && d.q != [] && d.olDel in d.finished
    case NotifySubmit(k) => k in d.notify
    case PendDelete => d.olDel == d.gone + 1 && d.notify == {}
  }

  /** The writes of the batch among the first `n` entries that are not delayed, in the
      order of the batch; the task may sort them by position before it sends them. */
  function Direct(d: DataSt, n: nat): seq<nat>
    requires n <= |d.q|
  {
    if n == 0 then []
    else Direct(d, n - 1) + if d.batch <= d.olDel + n - 1 && !d.q[n - 1].delayed then [d.olDel + n - 1] else []
  }

  /** Writes whose count reaches zero when the first entry leaves. */
  function ReleasedIds(d: DataSt): (r: set<nat>)
    requires d.q != []
  {
    set i | 0 <= i < |d.q| - 1 && Released(d.q, 0, i) :: d.olDel + 1 + i
  }

  function DNext(e: Env, d: DataSt, s: DStep): DataSt
    requires DEnabled(e, d, s)
  {
    match s
    case Take(n) => d.(taken := d.taken + n, stage := Checking)
    case Permanent => d.(stage := Inserting)
    case OlInsert => d.(q := Insert(d.q, OlIns(d), e.ls[OlIns(d)].w))
    case Sort(xs) => d.(list := xs, stage := Submitting)
    case DirectSubmit => d.(list := d.list[1..], submitted := d.submitted + {d.list[0]}, log := d.log + [d.list[0]])
    case Enqueue => d.(batch := d.taken, stage := Idle)
    case HitSector(k, x) => d.(hits := d.hits + [Hit(x, k)])
    case IoDone(k) => d.(finished := d.finished + {k})
    case OlDelete => d.(q := Delete(d.q, 0), olDel := d.olDel + 1, notify := d.notify + ReleasedIds(d))
    case NotifySubmit(k) => d.(submitted := d.submitted + {k}, notify := d.notify - {k}, log := d.log + [k])
    case PendDelete => d.(gone := d.gone + 1, pending := d.pending - {d.gone})
  }

  /** pending_insert_and_delete_fully_overwritten for write `k`. */
  function PendInsert(e: Env, d: DataSt, k: nat): DataSt
    requires k < |e.ls|
  {
    d.(pending := (set i | i in d.pending && !(i < |e.ls| && CoveredBy(e.ls[i].w, e.ls[k].w))) + {k})
  }

  // --------------------------------------------------------------- invariants

  ghost predicate Order(e: Env, d: DataSt) {
    && d.gone <= d.olDel <= d.gone + 1 && d.olDel <= d.batch <= OlIns(d) <= d.taken <= e.acked <= e.inserted <= |e.ls|
    && (d.stage.Idle? ==> d.batch == d.taken)
    && (d.stage.Checking? ==> OlIns(d) == d.batch)
    && (d.stage.Submitting? ==> OlIns(d) == d.taken)
    && (d.olDel == d.gone ==> d.notify == {})
  }

  /** The entries are the writes from `olDel` on. */
  ghost predicate Entries(e: Env, d: DataSt) {
    && OlIns(d) <= |e.ls|
    && (forall i | 0 <= i < |d.q| :: d.q[i].id == d.olDel + i && d.q[i].w == e.ls[d.olDel + i].w)
    && (forall i | 0 <= i < |d.q| && d.q[i].n > 0 :: d.q[i].delayed)
  }

  /** Only writes whose log is permanent get that far. */
  ghost predicate LogFirst(e: Env, d: DataSt) {
    && (forall k | 0 <= k < |e.ls| && k < OlIns(d) :: End(e.ls[k]) <= e.permanent)
    && (d.stage.Inserting? ==> d.taken <= |e.ls| && forall k | 0 <= k < |e.ls| && k < d.taken :: End(e.ls[k]) <= e.permanent)
  }

  ghost predicate MapOk(e: Env, d: DataSt) {
    Entries(e, d) && CountsOk(d.q) && LogFirst(e, d)
  }

  /** Entry `i` waits for no other one. */
  predicate Free(d: DataSt, i: nat)
    requires i < |d.q|
  {
    d.q[i].n == 0
  }

  ghost predicate Flight(d: DataSt) {
    && d.finished <= d.submitted
    && (forall k | k in d.submitted :: k < OlIns(d))
    && (forall k | k in d.notify :: d.olDel <= k < OlIns(d) && k !in d.submitted && d.q[k - d.olDel].delayed)
    && (forall k | 0 <= k < d.olDel :: k in d.finished)
    && (forall i | 0 <= i < |d.q| && d.olDel + i in d.submitted + d.notify :: Free(d, i))
    && (forall i | 0 <= i < |d.q| && d.q[i].delayed && Free(d, i) :: d.olDel + i in d.submitted + d.notify)
    && (forall i | 0 <= i < |d.q| && !d.q[i].delayed && d.olDel + i < d.batch :: d.olDel + i in d.submitted)
  }

  /** A write the submit task has yet to send. */
  predicate Unsent(d: DataSt, k: nat) {
    d.olDel <= k && d.batch <= k < OlIns(d) && !d.q[k - d.olDel].delayed && k !in d.submitted
  }

  ghost predicate NoRepeat(xs: seq<nat>) {
    forall a, b | 0 <= a < b < |xs| :: xs[a] != xs[b]
  }

  /** The submit task sends exactly the writes of its batch that are not delayed. */
  ghost predicate Sending(d: DataSt) {
    && (!d.stage.Submitting? ==> d.list == []) && NoRepeat(d.list)
    && (forall a | 0 <= a < |d.list| :: Unsent(d, d.list[a]))
    && (forall i | 0 <= i < |d.q| && d.batch <= d.olDel + i && !d.q[i].delayed ::
          if d.stage.Submitting? then d.olDel + i in d.submitted || d.olDel + i in d.list else d.olDel + i !in d.submitted)
  }

  /** The calls so far sent each submitted write once, and no other one. */
  ghost predicate Once(d: DataSt) {
    && NoRepeat(d.log)
    && (forall a | 0 <= a < |d.log| :: d.log[a] in d.submitted)
    && (forall k | k in d.submitted :: k in d.log)
  }

  ghost predicate HitsOk(e: Env, d: DataSt) {
    && (forall k | k in d.submitted :: k < |e.ls|)
    && (forall a | 0 <= a < |d.hits| :: d.hits[a].k in d.submitted && d.hits[a].k < |e.ls| && Covers(e.ls[d.hits[a].k].w, d.hits[a].x))
    && (forall k, x: nat | k in d.finished && k < |e.ls| && Covers(e.ls[k].w, x) :: Reached(d.hits, x, k))
    && (forall a, b | 0 <= a < b < |d.hits| && d.hits[a].x == d.hits[b].x :: d.hits[a].k < d.hits[b].k)
  }

  ghost predicate PendOk(e: Env, d: DataSt) {
    && e.inserted <= |e.ls| && d.gone <= e.inserted
    && (forall k | k in d.pending :: d.gone <= k < e.inserted)
    && (forall k | 0 <= k < |e.ls| && d.gone <= k < e.inserted && k !in d.pending ::
          exists m :: k < m < e.inserted && CoveredBy(e.ls[k].w, e.ls[m].w))
  }

  ghost predicate DInv(e: Env, d: DataSt) {
    Order(e, d) && MapOk(e, d) && Flight(d) && HitsOk(e, d) && PendOk(e, d) && Sending(d) && Once(d)
  }

  lemma InitDInv(e: Env)
    requires e.inserted == e.acked == 0
    ensures DInv(e, InitData())
  {
  }

  // --------------------------------------------------------------- the theorems

  /** A write in flight has no overlapping write before it that is still in the
      map: two overlapping writes are never in flight together. */
  lemma EarlierGone(e: Env, d: DataSt, k: nat, m: nat)
    requires MapOk(e, d) && Flight(d) && k in d.submitted && m < k < |e.ls| && Overlap(e.ls[m].w, e.ls[k].w)
    ensures m < d.olDel && m in d.finished
  {
    hide Overlap, LogFirst, CountsOk, Entries;
    if d.olDel <= m {
      FlightFree(d, k);
      hide Flight;
      EntryIs(e, d, k);
      EntryIs(e, d, m);
      ReadyExactly(d.q, k - d.olDel);
    }
  }

  lemma EntryIs(e: Env, d: DataSt, k: nat)
    requires Entries(e, d) && d.olDel <= k < OlIns(d)
    ensures k < |e.ls| && d.q[k - d.olDel].w == e.ls[k].w
  {
  }

  lemma FlightFree(d: DataSt, k: nat)
    requires Flight(d) && k in d.submitted && d.olDel <= k
    ensures k < OlIns(d) && d.q[k - d.olDel].n == 0
  {
    assert Free(d, k - d.olDel);
  }

  /** The scheduler cannot deadlock: whatever the wait task is to wait for next
      waits for no other write and has been sent to the device. */
  lemma HeadReady(e: Env, d: DataSt)
    requires DInv(e, d) && d.gone == d.olDel < d.batch
    ensures d.q != [] && d.q[0].id == d.olDel && d.q[0].n == 0 && d.olDel in d.submitted
  {
    hide HitsOk, PendOk;
    FirstIsReady(d.q);
    assert Free(d, 0);
  }

  lemma FlightAt(d: DataSt, i: nat)
    requires Flight(d) && i < |d.q|
    ensures d.olDel + i in d.submitted + d.notify ==> d.q[i].n == 0
    ensures d.q[i].delayed && d.q[i].n == 0 ==> d.olDel + i in d.submitted + d.notify
  {
    assert Free(d, i) <==> d.q[i].n == 0;
    hide Free;
  }

  lemma ReleasedEntry(e: Env, d: DataSt, i: nat)
    requires MapOk(e, d) && d.q != [] && i < |d.q| - 1 && Released(d.q, 0, i)
    ensures d.q[i + 1].n > 0 && d.q[i + 1].delayed
  {
    FirstIsReady(d.q);
    NoUnderflow(d.q, 0, i + 1);
    hide CountsOk, LogFirst;
  }

  /** A released write was delayed and not sent before. */
  lemma ReleasedIsNew(e: Env, d: DataSt, k: nat)
    requires MapOk(e, d) && Flight(d) && d.q != [] && k in ReleasedIds(d)
    ensures d.olDel < k < OlIns(d) && d.q[k - d.olDel].delayed && k !in d.submitted && k !in d.notify
  {
    hide MapOk, Flight, Released;
    var i := k - d.olDel - 1;
    assert Released(d.q, 0, i);
    ReleasedEntry(e, d, i);
    FlightAt(d, i + 1);
  }

  // ------------------------------------------------- every step keeps the rest

  lemma OrderStep(e: Env, d: DataSt, s: DStep)
    requires DEnabled(e, d, s) && Order(e, d)
    ensures Order(e, DNext(e, d, s))
  {
    hide Count, ReleasedIds, Covers, Reached;
  }

  lemma PendStep(e: Env, d: DataSt, s: DStep)
    requires DEnabled(e, d, s) && Order(e, d) && PendOk(e, d)
    ensures PendOk(e, DNext(e, d, s))
  {
    hide Insert, ReleasedIds, Covers, Reached, CoveredBy, Delete;
    if s.PendDelete? {
      var d2 := DNext(e, d, s);
      assert forall k | k in d2.pending :: k in d.pending && k != d.gone;
      assert forall k | k in d.pending && k != d.gone :: k in d2.pending;
    }
  }

  // The overlap map.

  lemma QueueSame(e: Env, d: DataSt, s: DStep)
    requires DEnabled(e, d, s) && MapOk(e, d) && !s.Take? && !s.OlInsert? && !s.OlDelete? && !s.Permanent?
    ensures MapOk(e, DNext(e, d, s))
  {
    hide Covers, Reached, CountsOk, ReleasedIds;
  }

  lemma TakeQueue(e: Env, d: DataSt, n: nat)
    requires DEnabled(e, d, Take(n)) && MapOk(e, d)
    ensures MapOk(e, DNext(e, d, Take(n)))
  {
    hide CountsOk;
  }

  /** The writes of a batch are permanent in the log when the last one is. */
  lemma PermanentQueue(e: Env, d: DataSt)
    requires DEnabled(e, d, Permanent) && MapOk(e, d) && Order(e, d)
    requires forall j, k | 0 <= j <= k < |e.ls| :: End(e.ls[j]) <= End(e.ls[k])
    ensures MapOk(e, DNext(e, d, Permanent))
  {
    hide CountsOk;
  }

  lemma InsertQueue(e: Env, d: DataSt)
    requires DEnabled(e, d, OlInsert) && MapOk(e, d)
    ensures MapOk(e, DNext(e, d, OlInsert))
  {
    hide CountsOk, Count;
    InsertKeeps(d.q, OlIns(d), e.ls[OlIns(d)].w);
  }

  lemma DeleteQueue(e: Env, d: DataSt)
    requires DEnabled(e, d, OlDelete) && MapOk(e, d)
    ensures MapOk(e, DNext(e, d, OlDelete))
  {
    hide CountsOk, ReleasedIds, Entries, Delete, Lower;
    FirstIsReady(d.q);
    DeleteKeeps(d.q, 0);
    DeleteEntries(e, d, DNext(e, d, OlDelete));
  }

  lemma DeleteEntries(e: Env, d: DataSt, d2: DataSt)
    requires Entries(e, d) && CountsOk(d.q) && d.q != [] && d.q[0].n == 0 && d2.q == Delete(d.q, 0) && d2.olDel == d.olDel + 1
    ensures Entries(e, d2)
  {
    hide CountsOk, Delete, Released;
    forall i | 0 <= i < |d2.q|
      ensures d2.q[i].id == d2.olDel + i && d2.q[i].w == e.ls[d2.olDel + i].w && (d2.q[i].n > 0 ==> d2.q[i].delayed)
    {
      DeletedEntry(d, i);
    }
  }

  lemma DeletedEntry(d: DataSt, i: nat)
    requires d.q != [] && i < |d.q| - 1 && CountsOk(d.q) && d.q[0].n == 0
    ensures var r, f := Delete(d.q, 0)[i], d.q[i + 1];
      r.id == f.id && r.w == f.w && r.delayed == f.delayed && r.n <= f.n
      && (r.n == 0 && f.n > 0 ==> Released(d.q, 0, i))
      && (Released(d.q, 0, i) ==> f.n > 0 && r.n == 0)
  {
    if Overlap(d.q[0].w, d.q[i + 1].w) {
      NoUnderflow(d.q, 0, i + 1);
    }
    hide CountsOk;
  }

  lemma QueueStep(e: Env, d: DataSt, s: DStep)
    requires DEnabled(e, d, s) && Order(e, d) && MapOk(e, d)
    requires forall j, k | 0 <= j <= k < |e.ls| :: End(e.ls[j]) <= End(e.ls[k])
    ensures MapOk(e, DNext(e, d, s))
  {
    hide DEnabled, DNext, MapOk, Order;
    match s
    case Take(n) => TakeQueue(e, d, n);
    case Permanent => PermanentQueue(e, d);
    case OlInsert => InsertQueue(e, d);
    case OlDelete => DeleteQueue(e, d);
    case Sort(_) => QueueSame(e, d, s);
    case DirectSubmit => QueueSame(e, d, s);
    case Enqueue => QueueSame(e, d, s);
    case HitSector(_, _) => QueueSame(e, d, s);
    case IoDone(_) => QueueSame(e, d, s);
    case NotifySubmit(_) => QueueSame(e, d, s);
    case PendDelete => QueueSame(e, d, s);
  }

  // What is in flight.

  lemma FlightSame(e: Env, d: DataSt, s: DStep)
    requires DEnabled(e, d, s) && Flight(d)
    requires s.Take? || s.Permanent? || s.Sort? || s.HitSector? || s.IoDone? || s.PendDelete?
    ensures Flight(DNext(e, d, s))
  {
    hide Covers, Reached;
    var d2 := DNext(e, d, s);
    assert forall i | 0 <= i < |d.q| :: Free(d2, i) == Free(d, i);
    hide Free;
  }

  lemma InsertFlight(e: Env, d: DataSt)
    requires DEnabled(e, d, OlInsert) && Flight(d) && Order(e, d)
    ensures Flight(DNext(e, d, OlInsert))
  {
    hide Count;
    var d2 := DNext(e, d, OlInsert);
    assert forall i | 0 <= i < |d.q| :: d2.q[i] == d.q[i] && Free(d2, i) == Free(d, i);
  }

  lemma DirectFlight(e: Env, d: DataSt)
    requires DEnabled(e, d, DirectSubmit) && Flight(d) && MapOk(e, d) && Sending(d)
    ensures Flight(DNext(e, d, DirectSubmit))
  {
    hide CountsOk, Covers, Reached;
    var d2, k := DNext(e, d, DirectSubmit), d.list[0];
    assert Unsent(d, k);
    assert forall i | 0 <= i < |d.q| :: Free(d2, i) == Free(d, i);
    assert Free(d, k - d.olDel);
    hide Free, Sending;
  }

  lemma EnqueueFlight(e: Env, d: DataSt)
    requires DEnabled(e, d, Enqueue) && Flight(d) && Sending(d)
    ensures Flight(DNext(e, d, Enqueue))
  {
    var d2 := DNext(e, d, Enqueue);
    assert forall i | 0 <= i < |d.q| :: Free(d2, i) == Free(d, i);
    hide Free, NoRepeat, Unsent;
  }

  lemma NotifyFlight(e: Env, d: DataSt, k: nat)
    requires DEnabled(e, d, NotifySubmit(k)) && Flight(d)
    ensures Flight(DNext(e, d, NotifySubmit(k)))
  {
    var d2 := DNext(e, d, NotifySubmit(k));
    assert d2.submitted + d2.notify == d.submitted + d.notify;
    assert forall i | 0 <= i < |d.q| :: Free(d2, i) == Free(d, i);
    hide Free;
  }

  lemma InReleased(d: DataSt, i: nat)
    requires d.q != [] && i < |d.q| - 1
    ensures d.olDel + 1 + i in ReleasedIds(d) <==> Released(d.q, 0, i)
  {
    hide Released;
  }

  lemma DeletedFlight(d: DataSt, i: nat)
    requires d.q != [] && Flight(d) && CountsOk(d.q) && d.q[0].n == 0 && i < |d.q| - 1
    ensures var r, id, notify := Delete(d.q, 0)[i], d.olDel + 1 + i, d.notify + ReleasedIds(d);
      && r.delayed == d.q[i + 1].delayed
      && (id in d.submitted + notify ==> r.n == 0)
      && (r.delayed && r.n == 0 ==> id in d.submitted + notify)
  {
    hide CountsOk, ReleasedIds, Released, Delete, Flight;
    DeletedEntry(d, i);
    InReleased(d, i);
    FlightAt(d, i + 1);
  }

  lemma EachDeleted(d: DataSt, d2: DataSt)
    requires d.q != [] && Flight(d) && CountsOk(d.q) && d.q[0].n == 0
    requires d2.q == Delete(d.q, 0) && d2.olDel == d.olDel + 1 && d2.submitted == d.submitted && d2.notify == d.notify + ReleasedIds(d)
    ensures forall i | 0 <= i < |d2.q| ::
      && d2.q[i].delayed == d.q[i + 1].delayed
      && (d2.olDel + i in d2.submitted + d2.notify ==> Free(d2, i))
      && (d2.q[i].delayed && Free(d2, i) ==> d2.olDel + i in d2.submitted + d2.notify)
  {
    hide CountsOk, Delete, ReleasedIds, Flight;
    forall i | 0 <= i < |d2.q|
      ensures d2.q[i].delayed == d.q[i + 1].delayed
      ensures d2.olDel + i in d2.submitted + d2.notify ==> Free(d2, i)
      ensures d2.q[i].delayed && Free(d2, i) ==> d2.olDel + i in d2.submitted + d2.notify
    {
      DeletedFlight(d, i);
    }
  }

  lemma NotifiedAre(e: Env, d: DataSt, d2: DataSt)
    requires MapOk(e, d) && Flight(d) && d.q != [] && d.olDel in d.finished
    requires |d2.q| == |d.q| - 1 && d2.olDel == d.olDel + 1 && d2.submitted == d.submitted && d2.notify == d.notify + ReleasedIds(d)
    requires forall i | 0 <= i < |d2.q| :: d2.q[i].delayed == d.q[i + 1].delayed
    ensures forall k | k in d2.notify :: d2.olDel <= k < OlIns(d2) && k !in d2.submitted && d2.q[k - d2.olDel].delayed
  {
    hide MapOk, Free, ReleasedIds;
    forall k | k in d2.notify ensures d2.olDel <= k < OlIns(d2) && k !in d2.submitted && d2.q[k - d2.olDel].delayed {
      if k in ReleasedIds(d) {
        ReleasedIsNew(e, d, k);
      }
    }
  }

  lemma FlightRest(d: DataSt, d2: DataSt)
    requires Flight(d) && d.q != [] && d.olDel in d.finished && |d2.q| == |d.q| - 1 && d2.olDel == d.olDel + 1
    requires d2.submitted == d.submitted && d2.finished == d.finished && d2.batch == d.batch
    requires forall i | 0 <= i < |d2.q| ::
      && d2.q[i].delayed == d.q[i + 1].delayed
      && (d2.olDel + i in d2.submitted + d2.notify ==> Free(d2, i))
      && (d2.q[i].delayed && Free(d2, i) ==> d2.olDel + i in d2.submitted + d2.notify)
    requires forall k | k in d2.notify :: d2.olDel <= k < OlIns(d2) && k !in d2.submitted && d2.q[k - d2.olDel].delayed
    ensures Flight(d2)
  {
    hide Free;
    assert forall k | 0 <= k < d2.olDel :: k in d2.finished;
    forall i | 0 <= i < |d2.q| && !d2.q[i].delayed && d2.olDel + i < d2.batch ensures d2.olDel + i in d2.submitted {
      assert !d.q[i + 1].delayed && d.olDel + (i + 1) in d.submitted;
    }
  }

  lemma DeleteMoves(e: Env, d: DataSt)
    requires DEnabled(e, d, OlDelete)
    ensures d.q != [] && d.olDel in d.finished
    ensures DNext(e, d, OlDelete) == d.(q := Delete(d.q, 0), olDel := d.olDel + 1, notify := d.notify + ReleasedIds(d))
  {
  }

  lemma DeleteFlight(e: Env, d: DataSt)
    requires DEnabled(e, d, OlDelete) && Flight(d) && MapOk(e, d)
    ensures Flight(DNext(e, d, OlDelete))
  {
    hide DEnabled, DNext, Flight, CountsOk, Entries, LogFirst, Delete, ReleasedIds, Free;
    DeleteMoves(e, d);
    FirstIsReady(d.q);
    var d2 := DNext(e, d, OlDelete);
    EachDeleted(d, d2);
    NotifiedAre(e, d, d2);
    FlightRest(d, d2);
  }

  lemma FlightStep(e: Env, d: DataSt, s: DStep)
    requires DEnabled(e, d, s) && Order(e, d) && MapOk(e, d) && Flight(d) && Sending(d)
    ensures Flight(DNext(e, d, s))
  {
    hide DEnabled, DNext, MapOk, Order, Flight, Sending;
    match s
    case Take(_) => FlightSame(e, d, s);
    case Permanent => FlightSame(e, d, s);
    case OlInsert => InsertFlight(e, d);
    case OlDelete => DeleteFlight(e, d);
    case Sort(_) => FlightSame(e, d, s);
    case DirectSubmit => DirectFlight(e, d);
    case Enqueue => EnqueueFlight(e, d);
    case HitSector(_, _) => FlightSame(e, d, s);
    case IoDone(_) => FlightSame(e, d, s);
    case NotifySubmit(k) => NotifyFlight(e, d, k);
    case PendDelete => FlightSame(e, d, s);
  }

  // Each write is sent once.

  lemma {:induction false} DirectIs(d: DataSt, n: nat, k: nat)
    requires n <= |d.q|
    ensures k in Direct(d, n) <==> d.olDel <= k < d.olDel + n && d.batch <= k && !d.q[k - d.olDel].delayed
    decreases n
  {
    if n > 0 {
      DirectIs(d, n - 1, k);
    }
  }

  lemma {:induction false} DirectOnce(d: DataSt, n: nat)
    requires n <= |d.q|
    ensures NoRepeat(Direct(d, n))
    decreases n
  {
    if n > 0 {
      DirectOnce(d, n - 1);
      var last, init := d.olDel + n - 1, Direct(d, n - 1);
      forall a | 0 <= a < |init| ensures init[a] != last {
        DirectIs(d, n - 1, init[a]);
      }
    }
  }

  lemma {:induction false} CountOnce(xs: seq<nat>, k: nat)
    requires NoRepeat(xs)
    ensures multiset(xs)[k] <= 1
    decreases |xs|
  {
    if xs != [] {
      var init, last := xs[..|xs| - 1], xs[|xs| - 1];
      assert xs == init + [last];
      CountOnce(init, k);
      if k == last {
        assert k !in init;
      }
    }
  }

  lemma CountTwice(xs: seq<nat>, a: nat, b: nat)
    requires a < b < |xs| && xs[a] == xs[b]
    ensures multiset(xs)[xs[a]] >= 2
  {
    assert xs == xs[..b] + [xs[b]] + xs[b + 1..];
    assert xs[..b][a] == xs[a];
    assert multiset(xs)[xs[a]] == multiset(xs[..b])[xs[a]] + multiset([xs[b]])[xs[a]] + multiset(xs[b + 1..])[xs[a]];
  }

  /** A rearrangement of a list without repetition has none either. */
  lemma SortedOnce(xs: seq<nat>, ys: seq<nat>)
    requires NoRepeat(ys) && multiset(xs) == multiset(ys)
    ensures NoRepeat(xs)
  {
    forall a, b | 0 <= a < b < |xs| ensures xs[a] != xs[b] {
      CountOnce(ys, xs[a]);
      if xs[a] == xs[b] {
        CountTwice(xs, a, b);
      }
    }
  }

  /** A rearrangement of the direct writes holds exactly these. */
  lemma SortedHas(d: DataSt, xs: seq<nat>, k: nat)
    requires multiset(xs) == multiset(Direct(d, |d.q|))
    ensures k in xs <==> d.olDel <= k < OlIns(d) && d.batch <= k && !d.q[k - d.olDel].delayed
  {
    DirectIs(d, |d.q|, k);
    hide Direct;
    assert k in xs <==> k in multiset(xs);
    assert k in Direct(d, |d.q|) <==> k in multiset(Direct(d, |d.q|));
  }

  lemma SortedOne(d: DataSt, d2: DataSt, xs: seq<nat>, k: nat)
    requires d2 == d.(list := xs, stage := Submitting)
    requires d.olDel <= k < OlIns(d) && d.batch <= k && !d.q[k - d.olDel].delayed
    requires forall i | 0 <= i < |d.q| && d.batch <= d.olDel + i && !d.q[i].delayed :: d.olDel + i !in d.submitted
    ensures Unsent(d2, k)
  {
    var i := k - d.olDel;
    assert !d.q[i].delayed && d.olDel + i == k;
  }

  lemma SortedUnsent(d: DataSt, d2: DataSt, xs: seq<nat>)
    requires d2 == d.(list := xs, stage := Submitting) && multiset(xs) == multiset(Direct(d, |d.q|))
    requires forall i | 0 <= i < |d.q| && d.batch <= d.olDel + i && !d.q[i].delayed :: d.olDel + i !in d.submitted
    ensures forall a | 0 <= a < |xs| :: Unsent(d2, xs[a])
  {
    hide Direct, Unsent;
    forall a | 0 <= a < |xs| ensures Unsent(d2, xs[a]) {
      SortedHas(d, xs, xs[a]);
      SortedOne(d, d2, xs, xs[a]);
    }
  }

  lemma SortedAll(d: DataSt, xs: seq<nat>)
    requires multiset(xs) == multiset(Direct(d, |d.q|))
    ensures forall i | 0 <= i < |d.q| && d.batch <= d.olDel + i && !d.q[i].delayed :: d.olDel + i in xs
  {
    forall i | 0 <= i < |d.q| && d.batch <= d.olDel + i && !d.q[i].delayed ensures d.olDel + i in xs {
      SortedHas(d, xs, d.olDel + i);
    }
  }

  lemma SortIs(e: Env, d: DataSt, xs: seq<nat>)
    requires DEnabled(e, d, Sort(xs)) && Sending(d)
    ensures DNext(e, d, Sort(xs)) == d.(list := xs, stage := Submitting) && multiset(xs) == multiset(Direct(d, |d.q|))
    ensures forall i | 0 <= i < |d.q| && d.batch <= d.olDel + i && !d.q[i].delayed :: d.olDel + i !in d.submitted
  {
    hide NoRepeat, Unsent;
  }

  lemma Submits(d: DataSt)
    requires d.stage.Submitting? && NoRepeat(d.list) && forall a | 0 <= a < |d.list| :: Unsent(d, d.list[a])
    requires forall i | 0 <= i < |d.q| && d.batch <= d.olDel + i && !d.q[i].delayed :: d.olDel + i in d.list
    ensures Sending(d)
  {
    hide NoRepeat, Unsent;
  }

  lemma SortSending(e: Env, d: DataSt, xs: seq<nat>)
    requires DEnabled(e, d, Sort(xs)) && Sending(d)
    ensures Sending(DNext(e, d, Sort(xs)))
  {
    hide DEnabled, DNext, Direct, NoRepeat, Unsent, Sending;
    SortIs(e, d, xs);
    DirectOnce(d, |d.q|);
    SortedOnce(xs, Direct(d, |d.q|));
    var d2 := d.(list := xs, stage := Submitting);
    SortedUnsent(d, d2, xs);
    SortedAll(d, xs);
    Submits(d2);
  }

  lemma DirectSending(e: Env, d: DataSt)
    requires DEnabled(e, d, DirectSubmit) && Sending(d)
    ensures Sending(DNext(e, d, DirectSubmit))
  {
    var d2, k := DNext(e, d, DirectSubmit), d.list[0];
    HeadSent(d, d2, k);
    assert d.list == [k] + d2.list;
    hide Unsent;
  }

  lemma HeadSent(d: DataSt, d2: DataSt, k: nat)
    requires NoRepeat(d.list) && d.list == [k] + d2.list && d2 == d.(list := d2.list, submitted := d.submitted + {k}, log := d2.log)
    requires forall a | 0 <= a < |d.list| :: Unsent(d, d.list[a])
    ensures NoRepeat(d2.list) && forall a | 0 <= a < |d2.list| :: Unsent(d2, d2.list[a])
  {
    forall a | 0 <= a < |d2.list| ensures Unsent(d2, d2.list[a]) {
      assert d2.list[a] == d.list[a + 1] != d.list[0] && Unsent(d, d.list[a + 1]);
    }
    forall a, b | 0 <= a < b < |d2.list| ensures d2.list[a] != d2.list[b] {
      assert d.list[a + 1] != d.list[b + 1];
    }
  }

  lemma DeleteSending(e: Env, d: DataSt)
    requires DEnabled(e, d, OlDelete) && Sending(d) && MapOk(e, d)
    ensures Sending(DNext(e, d, OlDelete))
  {
    DeleteMoves(e, d);
    DeleteBelowBatch(e, d);
    FirstIsReady(d.q);
    hide DEnabled, DNext, CountsOk, Entries, LogFirst, Delete, ReleasedIds, Sending;
    var d2 := DNext(e, d, OlDelete);
    forall i | 0 <= i < |d2.q| ensures d2.q[i].delayed == d.q[i + 1].delayed {
      DeletedEntry(d, i);
    }
    ShiftedSending(d, d2);
  }

  lemma DeleteBelowBatch(e: Env, d: DataSt)
    requires DEnabled(e, d, OlDelete)
    ensures d.olDel < d.batch
  {
  }

  /** Only entries below the batch leave the map. */
  lemma ShiftedSending(d: DataSt, d2: DataSt)
    requires Sending(d) && d.olDel < d.batch && d.q != [] && |d2.q| == |d.q| - 1 && d2.olDel == d.olDel + 1
    requires d2.stage == d.stage && d2.list == d.list && d2.batch == d.batch && d2.submitted == d.submitted
    requires forall i | 0 <= i < |d2.q| :: d2.q[i].delayed == d.q[i + 1].delayed
    ensures Sending(d2)
  {
    hide NoRepeat;
    forall a | 0 <= a < |d2.list| ensures Unsent(d2, d2.list[a]) {
      assert Unsent(d, d.list[a]);
    }
    forall i | 0 <= i < |d2.q| && d2.batch <= d2.olDel + i && !d2.q[i].delayed
      ensures if d2.stage.Submitting? then d2.olDel + i in d2.submitted || d2.olDel + i in d2.list else d2.olDel + i !in d2.submitted
    {
      assert !d.q[i + 1].delayed && d.olDel + (i + 1) == d2.olDel + i;
    }
  }

  lemma NotifySending(e: Env, d: DataSt, k: nat)
    requires DEnabled(e, d, NotifySubmit(k)) && Sending(d) && Flight(d)
    ensures Sending(DNext(e, d, NotifySubmit(k)))
  {
    hide NoRepeat, Free;
    var d2 := DNext(e, d, NotifySubmit(k));
    forall a | 0 <= a < |d2.list| ensures Unsent(d2, d2.list[a]) {
      assert Unsent(d, d.list[a]);
    }
  }

  lemma InsertSending(e: Env, d: DataSt)
    requires DEnabled(e, d, OlInsert) && Sending(d) && Flight(d)
    ensures Sending(DNext(e, d, OlInsert))
  {
    hide Count, Free;
  }

  lemma OtherSending(e: Env, d: DataSt, s: DStep)
    requires DEnabled(e, d, s) && Sending(d) && Order(e, d)
    requires s.Take? || s.Permanent? || s.Enqueue? || s.HitSector? || s.IoDone? || s.PendDelete?
    ensures Sending(DNext(e, d, s))
  {
    hide NoRepeat, Covers, Reached;
    var d2 := DNext(e, d, s);
    assert !s.Enqueue? ==> forall k: nat :: Unsent(d2, k) == Unsent(d, k);
  }

  lemma SendingStep(e: Env, d: DataSt, s: DStep)
    requires DEnabled(e, d, s) && Order(e, d) && MapOk(e, d) && Flight(d) && Sending(d)
    ensures Sending(DNext(e, d, s))
  {
    hide DEnabled, DNext, MapOk, Order, Flight, Sending;
    match s
    case Take(_) => OtherSending(e, d, s);
    case Permanent => OtherSending(e, d, s);
    case OlInsert => InsertSending(e, d);
    case Sort(xs) => SortSending(e, d, xs);
    case DirectSubmit => DirectSending(e, d);
    case Enqueue => OtherSending(e, d, s);
    case HitSector(_, _) => OtherSending(e, d, s);
    case IoDone(_) => OtherSending(e, d, s);
    case OlDelete => DeleteSending(e, d);
    case NotifySubmit(k) => NotifySending(e, d, k);
    case PendDelete => OtherSending(e, d, s);
  }

  lemma OnceStep(e: Env, d: DataSt, s: DStep)
    requires DEnabled(e, d, s) && Flight(d) && Sending(d) && Once(d)
    ensures Once(DNext(e, d, s))
  {
    hide ReleasedIds, Reached, Covers, Free;
    if s.DirectSubmit? {
      assert Unsent(d, d.list[0]);
    }
    hide Sending, Unsent;
    var d2 := DNext(e, d, s);
    forall k | k in d2.submitted ensures k in d2.log {
      if k in d.submitted {
        assert k in d.log;
      } else {
        assert d2.log[|d.log|] == k;
      }
    }
  }

  /** Each write is sent to the data device exactly once: the calls never repeat a
      write, and by the time a write leaves the overlap map it has been sent. */
  lemma SentExactlyOnce(e: Env, d: DataSt, k: nat)
    requires DInv(e, d)
    ensures multiset(d.log)[k] <= 1
    ensures k < d.olDel ==> multiset(d.log)[k] == 1
  {
    hide Order, MapOk, HitsOk, PendOk, Sending, Free;
    CountOnce(d.log, k);
    if k < d.olDel {
      assert k in d.submitted && k in d.log;
    }
  }

  // What has reached the device.

  lemma HitsSame(e: Env, d: DataSt, s: DStep)
    requires DEnabled(e, d, s) && Order(e, d) && Flight(d) && HitsOk(e, d) && !s.HitSector? && !s.IoDone? && !s.DirectSubmit?
    ensures HitsOk(e, DNext(e, d, s))
  {
    hide Covers, Reached, ReleasedIds, Delete, Insert;
  }

  lemma DirectHits(e: Env, d: DataSt)
    requires DEnabled(e, d, DirectSubmit) && Order(e, d) && Sending(d) && HitsOk(e, d)
    ensures HitsOk(e, DNext(e, d, DirectSubmit))
  {
    hide Covers, Reached;
    assert Unsent(d, d.list[0]);
    hide Sending;
  }

  lemma ReachedMore(hits: seq<Hit>, h: Hit, x: nat, k: nat)
    requires Reached(hits, x, k)
    ensures Reached(hits + [h], x, k)
  {
    var a :| 0 <= a < |hits| && hits[a] == Hit(x, k);
    assert (hits + [h])[a] == Hit(x, k);
  }

  /** A sector is reached by its writes in log order: a later write of the sector
      is not in flight before all earlier ones are through, and an earlier one is
      through by then. */
  lemma HitInOrder(e: Env, d: DataSt, k: nat, x: nat, a: nat)
    requires MapOk(e, d) && Flight(d) && HitsOk(e, d) && DEnabled(e, d, HitSector(k, x))
    requires a < |d.hits| && d.hits[a].x == x
    ensures d.hits[a].k < k
  {
    var m := d.hits[a].k;
    assert d.hits[a] == Hit(x, m);
    if k < m {
      assert Overlap(e.ls[k].w, e.ls[m].w);
      hide HitsOk;
      EarlierGone(e, d, m, k);
    }
  }

  lemma HitKeeps(e: Env, d: DataSt, k: nat, x: nat)
    requires MapOk(e, d) && Flight(d) && HitsOk(e, d) && DEnabled(e, d, HitSector(k, x))
    ensures HitsOk(e, DNext(e, d, HitSector(k, x)))
  {
    var d2 := DNext(e, d, HitSector(k, x));
    forall a | 0 <= a < |d.hits| && d.hits[a].x == x ensures d.hits[a].k < k {
      HitInOrder(e, d, k, x, a);
    }
    hide MapOk, Flight, Covers, Reached;
    forall m, y: nat | m in d2.finished && m < |e.ls| && Covers(e.ls[m].w, y) ensures Reached(d2.hits, y, m) {
      ReachedMore(d.hits, Hit(x, k), y, m);
    }
  }

  lemma DoneKeeps(e: Env, d: DataSt, k: nat)
    requires HitsOk(e, d) && DEnabled(e, d, IoDone(k))
    ensures HitsOk(e, DNext(e, d, IoDone(k)))
  {
    hide Covers, Reached;
  }

  lemma HitsStep(e: Env, d: DataSt, s: DStep)
    requires DEnabled(e, d, s) && Order(e, d) && MapOk(e, d) && Flight(d) && HitsOk(e, d) && Sending(d)
    ensures HitsOk(e, DNext(e, d, s))
  {
    hide DEnabled, DNext, MapOk, Order, Flight, HitsOk, Sending;
    if s.HitSector? {
      HitKeeps(e, d, s.k, s.x);
    } else if s.IoDone? {
      DoneKeeps(e, d, s.k);
    } else if s.DirectSubmit? {
      DirectHits(e, d);
    } else {
      HitsSame(e, d, s);
    }
  }

  /** Every step of the data side keeps the invariant. */
  lemma DStepInv(e: Env, d: DataSt, s: DStep)
    requires DEnabled(e, d, s) && DInv(e, d)
    requires forall j, k | 0 <= j <= k < |e.ls| :: End(e.ls[j]) <= End(e.ls[k])
    ensures DInv(e, DNext(e, d, s))
  {
    hide DEnabled, DNext, MapOk, Order, Flight, HitsOk, PendOk, Sending, Once;
    OrderStep(e, d, s);
    QueueStep(e, d, s);
    FlightStep(e, d, s);
    SendingStep(e, d, s);
    OnceStep(e, d, s);
    HitsStep(e, d, s);
    PendStep(e, d, s);
  }

  // --------------------------------------------- what the log side does to it

  /** The log side moves on without touching the data side. */
  ghost predicate EnvGrows(e: Env, f: Env) {
    e.ls <= f.ls && e.permanent <= f.permanent && e.acked <= f.acked <= f.inserted <= |f.ls| && e.inserted == f.inserted
  }

  lemma EnvOrder(e: Env, f: Env, d: DataSt)
    requires EnvGrows(e, f) && Order(e, d) && MapOk(e, d)
    ensures Order(f, d) && MapOk(f, d)
  {
    hide CountsOk;
  }

  lemma EnvHits(e: Env, f: Env, d: DataSt)
    requires EnvGrows(e, f) && HitsOk(e, d) && d.finished <= d.submitted
    ensures HitsOk(f, d)
  {
    hide Reached, Covers;
    assert forall k | 0 <= k < |e.ls| :: f.ls[k] == e.ls[k];
    forall k, x: nat | k in d.finished && k < |f.ls| && Covers(f.ls[k].w, x) ensures Reached(d.hits, x, k) {
      assert k in d.submitted && f.ls[k] == e.ls[k];
    }
  }

  lemma EnvPend(e: Env, f: Env, d: DataSt)
    requires EnvGrows(e, f) && PendOk(e, d)
    ensures PendOk(f, d)
  {
    hide CoveredBy;
    forall k | 0 <= k < |f.ls| && d.gone <= k < f.inserted && k !in d.pending
      ensures exists m :: k < m < f.inserted && CoveredBy(f.ls[k].w, f.ls[m].w)
    {
      var m :| k < m < e.inserted && CoveredBy(e.ls[k].w, e.ls[m].w);
      assert CoveredBy(f.ls[k].w, f.ls[m].w);
    }
  }

  lemma EnvInv(e: Env, f: Env, d: DataSt)
    requires EnvGrows(e, f) && DInv(e, d)
    ensures DInv(f, d)
  {
    assert d.finished <= d.submitted;
    hide Order, MapOk, Flight, HitsOk, PendOk, EnvGrows, Sending, Once;
    EnvOrder(e, f, d);
    EnvHits(e, f, d);
    EnvPend(e, f, d);
  }

  /** Inserting the next write into the pending data drops the entries it
      overwrites entirely; every dropped write stays covered by a later one. */
  lemma InsertPend(e: Env, d: DataSt)
    requires PendOk(e, d) && e.inserted < |e.ls|
    ensures PendOk(e.(inserted := e.inserted + 1), PendInsert(e, d, e.inserted))
  {
    hide CoveredBy;
    var n := e.inserted;
    var f, d2 := e.(inserted := n + 1), PendInsert(e, d, n);
    forall k | 0 <= k < |e.ls| && d.gone <= k < n + 1 && k !in d2.pending
      ensures exists m :: k < m < n + 1 && CoveredBy(e.ls[k].w, e.ls[m].w)
    {
      if k in d.pending {
        assert CoveredBy(e.ls[k].w, e.ls[n].w);
      } else {
        var m :| k < m < n && CoveredBy(e.ls[k].w, e.ls[m].w);
        assert m < n + 1;
      }
    }
  }

  lemma InsertInv(e: Env, d: DataSt)
    requires DInv(e, d) && e.inserted < |e.ls|
    ensures DInv(e.(inserted := e.inserted + 1), PendInsert(e, d, e.inserted))
  {
    InsertPend(e, d);
    var f, d2 := e.(inserted := e.inserted + 1), PendInsert(e, d, e.inserted);
    assert d2 == d.(pending := d2.pending);
    hide PendOk, Order, MapOk, Flight, HitsOk, Sending, Once, PendInsert;
    InsertRest(e, f, d, d2);
    SameSending(d, d2);
  }

  lemma SameSending(d: DataSt, d2: DataSt)
    requires Sending(d) && Once(d) && d2 == d.(pending := d2.pending)
    ensures Sending(d2) && Once(d2)
  {
    hide NoRepeat;
    forall a | 0 <= a < |d.list| ensures Unsent(d2, d2.list[a]) {
      assert Unsent(d, d.list[a]);
    }
  }

  lemma {:induction false} InsertRest(e: Env, f: Env, d: DataSt, d2: DataSt)
    requires Order(e, d) && MapOk(e, d) && Flight(d) && HitsOk(e, d) && e.inserted < |e.ls|
    requires f == e.(inserted := e.inserted + 1) && d2 == d.(pending := d2.pending)
    ensures Order(f, d2) && MapOk(f, d2) && Flight(d2) && HitsOk(f, d2)
  {
    hide CountsOk, Covers, Reached;
    SameFlight(d, d2);
    hide Flight;
  }

  lemma SameFlight(d: DataSt, d2: DataSt)
    requires Flight(d) && d2 == d.(pending := d2.pending)
    ensures Flight(d2)
  {
    assert forall i | 0 <= i < |d.q| :: Free(d2, i) == Free(d, i);
    hide Free;
  }

  // ---------------------------------------------------- the image and the view

  /** The data device after the given hits. */
  function After(d0: Image, ls: seq<Logged>, hits: seq<Hit>): (r: Image)
    ensures |r| == |d0|
    decreases |hits|
  {
    if hits == [] then d0
    else
      var before, h := After(d0, ls, hits[..|hits| - 1]), hits[|hits| - 1];
      if h.k < |ls| && Covers(ls[h.k].w, h.x) && h.x < |d0| then before[h.x := ls[h.k].w.data[h.x - ls[h.k].w.pos]] else before
  }

  /** The hits are proper ones. */
  ghost predicate HitsFit(ls: seq<Logged>, hits: seq<Hit>) {
    forall a | 0 <= a < |hits| :: hits[a].k < |ls| && Covers(ls[hits[a].k].w, hits[a].x)
  }

  /** What a sector holds: its last hit, or what was there before. */
  lemma {:induction false} LastHit(d0: Image, ls: seq<Logged>, hits: seq<Hit>, x: nat) returns (a: int)
    requires x < |d0| && HitsFit(ls, hits)
    ensures -1 <= a < |hits|
    ensures a < 0 ==> After(d0, ls, hits)[x] == d0[x] && forall b | 0 <= b < |hits| :: hits[b].x != x
    ensures a >= 0 ==> hits[a].x == x && hits[a].k < |ls| && Covers(ls[hits[a].k].w, x)
                       && After(d0, ls, hits)[x] == ls[hits[a].k].w.data[x - ls[hits[a].k].w.pos]
                       && forall b | a < b < |hits| :: hits[b].x != x
    decreases |hits|
  {
    if hits == [] {
      a := -1;
    } else {
      var n := |hits| - 1;
      if hits[n].x == x {
        a := n;
      } else {
        a := LastHit(d0, ls, hits[..n], x);
      }
    }
  }

  /** The newest of the first `n` writes that is pending and covers the sector,
      or -1: what copying the pending writes in lsid order leaves on top. */
  function Newest(ls: seq<Logged>, pending: set<nat>, n: nat, x: nat): (k: int)
    requires n <= |ls|
    ensures -1 <= k < n
    ensures k >= 0 ==> k in pending && Covers(ls[k].w, x)
    ensures forall j | k < j < n && j in pending :: !Covers(ls[j].w, x)
    decreases n
  {
    if n == 0 then -1
    else if (n - 1) in pending && Covers(ls[n - 1].w, x) then n - 1
    else Newest(ls, pending, n - 1, x)
  }

  /** What a read sees: the data device overlaid with the pending writes. */
  function View(d0: Image, e: Env, d: DataSt, x: nat): Sector
    requires x < |d0| && e.inserted <= |e.ls|
  {
    var k := Newest(e.ls, d.pending, e.inserted, x);
    if k >= 0 then e.ls[k].w.data[x - e.ls[k].w.pos] else After(d0, e.ls, d.hits)[x]
  }

  function WritesIn(ls: seq<Logged>, n: nat): (ws: seq<Write>)
    requires n <= |ls|
    ensures |ws| == n
  {
    seq(n, i requires 0 <= i < n => ls[i].w)
  }

  ghost predicate LoggedFit(ls: seq<Logged>, size: nat) {
    forall k | 0 <= k < |ls| :: Fits(ls[k].w, size)
  }

  /** The last writer of the sector, if it has left the pending data, is what the
      device holds; if not, it is what the overlay shows. */
  lemma ViewOfLast(d0: Image, e: Env, d: DataSt, x: nat, j: nat)
    requires x < |d0| && DInv(e, d) && j < e.inserted && Covers(e.ls[j].w, x)
    requires forall k | j < k < e.inserted :: !Covers(e.ls[k].w, x)
    ensures View(d0, e, d, x) == e.ls[j].w.data[x - e.ls[j].w.pos]
  {
    hide MapOk, After;
    if j in d.pending {
      hide DInv;
      assert Newest(e.ls, d.pending, e.inserted, x) == j;
    } else {
      LastIsGone(e, d, x, j);
      LastWasHit(d0, e, d, x, j);
      hide HitsOk, Flight;
      assert Newest(e.ls, d.pending, e.inserted, x) < 0;
    }
  }

  lemma LastIsGone(e: Env, d: DataSt, x: nat, j: nat)
    requires PendOk(e, d) && j < e.inserted && Covers(e.ls[j].w, x) && j !in d.pending
    requires forall k | j < k < e.inserted :: !Covers(e.ls[k].w, x)
    ensures j < d.gone
  {
    forall m | j < m < e.inserted ensures !CoveredBy(e.ls[j].w, e.ls[m].w) {
      assert !Covers(e.ls[m].w, x);
    }
  }

  lemma HitsAreFit(e: Env, d: DataSt)
    requires HitsOk(e, d)
    ensures HitsFit(e.ls, d.hits)
  {
    hide Covers, Reached;
  }

  lemma GoneIsHit(e: Env, d: DataSt, x: nat, j: nat) returns (b: nat)
    requires Order(e, d) && Flight(d) && HitsOk(e, d) && j < d.gone && Covers(e.ls[j].w, x)
    ensures b < |d.hits| && d.hits[b] == Hit(x, j)
  {
    hide Covers, Free;
    assert j in d.finished;
    assert Reached(d.hits, x, j);
    b :| 0 <= b < |d.hits| && d.hits[b] == Hit(x, j);
  }

  /** Every hit is by an inserted write. */
  lemma HitInserted(e: Env, d: DataSt, a: nat)
    requires Order(e, d) && Flight(d) && HitsOk(e, d) && a < |d.hits|
    ensures d.hits[a].k < OlIns(d) <= e.inserted <= |e.ls|
  {
    hide Covers, Reached, Free;
    assert d.hits[a].k in d.submitted;
  }

  lemma HitsOrdered(e: Env, d: DataSt, a: nat, b: nat)
    requires HitsOk(e, d) && a <= b < |d.hits| && d.hits[a].x == d.hits[b].x
    ensures d.hits[a].k <= d.hits[b].k
  {
    hide Covers, Reached;
  }

  /** A hit of the sector at or after the hit by its last writer is by that writer. */
  lemma SameWriter(e: Env, d: DataSt, x: nat, j: nat, b: nat, a: nat)
    requires Order(e, d) && Flight(d) && HitsOk(e, d) && j < e.inserted
    requires forall k | j < k < e.inserted :: !Covers(e.ls[k].w, x)
    requires b <= a < |d.hits| && d.hits[b] == Hit(x, j) && d.hits[a].x == x
    ensures d.hits[a].k == j
  {
    HitInserted(e, d, a);
    HitsOrdered(e, d, b, a);
    HitsAreFit(e, d);
    hide Order, Flight, HitsOk, Covers;
    assert Covers(e.ls[d.hits[a].k].w, x);
  }

  /** A sector that was hit holds what its last hit brought. */
  lemma LastHitFrom(d0: Image, ls: seq<Logged>, hits: seq<Hit>, x: nat, b: nat) returns (a: nat)
    requires x < |d0| && HitsFit(ls, hits) && b < |hits| && hits[b].x == x
    ensures b <= a < |hits| && hits[a].x == x && hits[a].k < |ls| && Covers(ls[hits[a].k].w, x)
    ensures After(d0, ls, hits)[x] == ls[hits[a].k].w.data[x - ls[hits[a].k].w.pos]
  {
    hide After, HitsFit;
    var n := LastHit(d0, ls, hits, x);
    assert hits[b].x == x;
    a := n;
  }

  lemma LastWasHit(d0: Image, e: Env, d: DataSt, x: nat, j: nat)
    requires x < |d0| && Order(e, d) && Flight(d) && HitsOk(e, d) && j < d.gone && Covers(e.ls[j].w, x)
    requires forall k | j < k < e.inserted :: !Covers(e.ls[k].w, x)
    ensures After(d0, e.ls, d.hits)[x] == e.ls[j].w.data[x - e.ls[j].w.pos]
  {
    hide Order, Flight, HitsOk, After, HitsFit, Covers;
    GoneInserted(e, d);
    HitsAreFit(e, d);
    var b := GoneIsHit(e, d, x, j);
    var a := LastHitFrom(d0, e.ls, d.hits, x, b);
    SameWriter(e, d, x, j, b, a);
  }

  lemma GoneInserted(e: Env, d: DataSt)
    requires Order(e, d)
    ensures d.gone <= e.inserted <= |e.ls|
  {
  }

  /** A sector that no write covers shows what was there at first. */
  lemma ViewOfNone(d0: Image, e: Env, d: DataSt, x: nat)
    requires x < |d0| && DInv(e, d) && forall k | 0 <= k < e.inserted :: !Covers(e.ls[k].w, x)
    ensures View(d0, e, d, x) == d0[x]
  {
    hide MapOk, After, PendOk;
    HitsAreFit(e, d);
    var a := LastHit(d0, e.ls, d.hits, x);
    hide Reached, CoveredBy;
  }

  /** The view theorem. At any time a read of the whole device, the data device
      overlaid with the pending writes, shows the initial image with all writes
      inserted so far applied in log order. */
  lemma ReadsSeeAllWrites(d0: Image, e: Env, d: DataSt, x: nat)
    requires x < |d0| && DInv(e, d) && LoggedFit(e.ls, |d0|)
    ensures View(d0, e, d, x) == Apply(d0, WritesIn(e.ls, e.inserted))[x]
  {
    hide DInv, View, Apply, LoggedFit, LastWriter, NoWriter;
    InsertedBounds(e, d);
    var ws := WritesIn(e.ls, e.inserted);
    WritesFit(e.ls, e.inserted, |d0|);
    var j := FindLast(ws, x);
    if j < 0 {
      ApplyNone(d0, ws, x);
      NoneInserted(e, x);
      ViewOfNone(d0, e, d, x);
    } else {
      ApplyLast(d0, ws, x, j);
      LastInserted(e, x, j);
      ViewOfLast(d0, e, d, x, j);
    }
  }

  lemma InsertedBounds(e: Env, d: DataSt)
    requires DInv(e, d)
    ensures e.inserted <= |e.ls|
  {
    hide MapOk, Flight, HitsOk, PendOk;
  }

  lemma WritesFit(ls: seq<Logged>, n: nat, size: nat)
    requires n <= |ls| && LoggedFit(ls, size)
    ensures AllFit(WritesIn(ls, n), size)
  {
  }

  lemma NoneInserted(e: Env, x: nat)
    requires e.inserted <= |e.ls| && NoWriter(WritesIn(e.ls, e.inserted), x)
    ensures forall k | 0 <= k < e.inserted :: !Covers(e.ls[k].w, x)
  {
    hide Covers;
    forall k | 0 <= k < e.inserted ensures !Covers(e.ls[k].w, x) {
      assert WritesIn(e.ls, e.inserted)[k] == e.ls[k].w;
    }
  }

  lemma LastInserted(e: Env, x: nat, j: nat)
    requires e.inserted <= |e.ls| && LastWriter(WritesIn(e.ls, e.inserted), x, j)
    ensures j < e.inserted && Covers(e.ls[j].w, x) && WritesIn(e.ls, e.inserted)[j] == e.ls[j].w
    ensures forall k | j < k < e.inserted :: !Covers(e.ls[k].w, x)
  {
    hide Covers;
    forall k | j < k < e.inserted ensures !Covers(e.ls[k].w, x) {
      assert WritesIn(e.ls, e.inserted)[k] == e.ls[k].w;
    }
  }
}
