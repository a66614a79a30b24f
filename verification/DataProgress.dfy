/** The data half of the pipeline cannot get stuck: once the log of the acknowledged
    writes is permanent, its tasks and the device can bring all of them through. */
module DataProgress {
  import opened Words
  import opened Disk
  import opened LogDevice
  import opened Overlapped
  import opened DataSide

  ghost predicate DFollows(e: Env, d: DataSt, d2: DataSt, t: DStep) {
    DEnabled(e, d, t) && d2 == DNext(e, d, t)
  }

  ghost predicate DOne(e: Env, d: DataSt, d2: DataSt) {
    exists t :: DFollows(e, d, d2, t)
  }

  ghost predicate DPath(e: Env, ds: seq<DataSt>) {
    ds != [] && forall i | 0 < i < |ds| :: DOne(e, ds[i - 1], ds[i])
  }

  /** Some steps of the data half lead from `d` to `d2`. */
  ghost predicate DLeads(e: Env, d: DataSt, d2: DataSt) {
    exists ds :: DPath(e, ds) && ds[0] == d && ds[|ds| - 1] == d2
  }

  lemma DLeadsSelf(e: Env, d: DataSt)
    ensures DLeads(e, d, d)
  {
    assert DPath(e, [d]);
  }

  lemma DLeadsThen(e: Env, d: DataSt, d1: DataSt, t: DStep)
    requires DLeads(e, d, d1) && DEnabled(e, d1, t)
    ensures DLeads(e, d, DNext(e, d1, t))
  {
    hide DEnabled, DNext;
    var ds :| DPath(e, ds) && ds[0] == d && ds[|ds| - 1] == d1;
    var d2 := DNext(e, d1, t);
    var more := ds + [d2];
    assert DFollows(e, d1, d2, t);
    hide DFollows;
    forall i | 0 < i < |more| ensures DOne(e, more[i - 1], more[i]) {
      if i < |ds| {
        assert DOne(e, ds[i - 1], ds[i]);
      }
    }
    assert DPath(e, more);
  }

  /** What the log half has to provide. */
  ghost predicate LogReady(e: Env) {
    && (forall j, k | 0 <= j <= k < |e.ls| :: End(e.ls[j]) <= End(e.ls[k]))
    && e.acked <= |e.ls| && forall k | 0 <= k < e.acked :: End(e.ls[k]) <= e.permanent
  }

  /** The invariant, and that a batch under way has some write. */
  ghost predicate DSane(e: Env, d: DataSt) {
    DInv(e, d) && (d.stage.Checking? ==> 0 < d.taken)
  }

  lemma SaneStep(e: Env, d: DataSt, t: DStep)
    requires (d.stage.Checking? ==> 0 < d.taken) && DEnabled(e, d, t)
    ensures DNext(e, d, t).stage.Checking? ==> 0 < DNext(e, d, t).taken
  {
    hide Reached, Direct, ReleasedIds;
  }

  /** One step, with what is needed to go on. */
  lemma DStepOn(e: Env, d0: DataSt, d: DataSt, t: DStep)
    requires DLeads(e, d0, d) && DSane(e, d) && LogReady(e) && DEnabled(e, d, t)
    ensures DLeads(e, d0, DNext(e, d, t)) && DSane(e, DNext(e, d, t))
  {
    hide DLeads, DInv, DEnabled, DNext;
    DLeadsThen(e, d0, d, t);
    DStepInv(e, d, t);
    SaneStep(e, d, t);
  }

  // ------------------------------------------------------------ the head's I/O

  lemma HitMore(hits: seq<Hit>, h: Hit, x: nat, k: nat)
    ensures Reached(hits, x, k) ==> Reached(hits + [h], x, k)
    ensures Reached(hits + [h], h.x, h.k)
  {
    assert (hits + [h])[|hits|] == h;
    if Reached(hits, x, k) {
      var a :| 0 <= a < |hits| && hits[a] == Hit(x, k);
      assert (hits + [h])[a] == Hit(x, k);
    }
  }

  /** The first `n` sectors of write `k` have reached the device. */
  ghost predicate HitTo(e: Env, hits: seq<Hit>, k: nat, n: nat)
    requires k < |e.ls|
  {
    forall x: nat | e.ls[k].w.pos <= x < e.ls[k].w.pos + n :: Reached(hits, x, k)
  }

  lemma HitNext(e: Env, hits: seq<Hit>, k: nat, n: nat, h: Hit)
    requires k < |e.ls| && HitTo(e, hits, k, n) && h == Hit(e.ls[k].w.pos + n, k)
    ensures HitTo(e, hits + [h], k, n + 1)
  {
    hide Reached;
    forall x: nat | e.ls[k].w.pos <= x < e.ls[k].w.pos + n + 1 ensures Reached(hits + [h], x, k) {
      HitMore(hits, h, x, k);
    }
  }

  lemma HitAlready(e: Env, hits: seq<Hit>, k: nat, n: nat)
    requires k < |e.ls| && HitTo(e, hits, k, n) && Reached(hits, e.ls[k].w.pos + n, k)
    ensures HitTo(e, hits, k, n + 1)
  {
    hide Reached;
  }

  lemma {:induction false} HitAll(e: Env, d0: DataSt, d: DataSt, k: nat, n: nat) returns (d2: DataSt)
    requires DLeads(e, d0, d) && DSane(e, d) && LogReady(e) && k < |e.ls| && k in d.submitted && k !in d.finished
    requires n <= |e.ls[k].w.data| && HitTo(e, d.hits, k, n)
    ensures DLeads(e, d0, d2) && DSane(e, d2) && d2 == d.(hits := d2.hits) && HitTo(e, d2.hits, k, |e.ls[k].w.data|)
    decreases |e.ls[k].w.data| - n
  {
    hide DLeads, DSane, LogReady, HitTo, Reached;
    d2 := d;
    if n < |e.ls[k].w.data| {
      var x := e.ls[k].w.pos + n;
      if Reached(d.hits, x, k) {
        HitAlready(e, d.hits, k, n);
        d2 := HitAll(e, d0, d, k, n + 1);
      } else {
        DStepOn(e, d0, d, HitSector(k, x));
        HitNext(e, d.hits, k, n, Hit(x, k));
        d2 := HitAll(e, d0, DNext(e, d, HitSector(k, x)), k, n + 1);
      }
    }
  }

  lemma HitWhole(e: Env, hits: seq<Hit>, k: nat)
    requires k < |e.ls| && HitTo(e, hits, k, |e.ls[k].w.data|)
    ensures forall x: nat | Covers(e.ls[k].w, x) :: Reached(hits, x, k)
  {
    hide Reached;
  }

  /** The I/O of a write that was sent comes to its end. */
  lemma FinishIo(e: Env, d0: DataSt, d: DataSt, k: nat) returns (d2: DataSt)
    requires DLeads(e, d0, d) && DSane(e, d) && LogReady(e) && k < |e.ls| && k in d.submitted && k !in d.finished
    ensures DLeads(e, d0, d2) && DSane(e, d2) && d2 == d.(hits := d2.hits, finished := d.finished + {k})
  {
    hide DLeads, DSane, LogReady, Reached;
    assert HitTo(e, d.hits, k, 0);
    hide HitTo;
    var d1 := HitAll(e, d0, d, k, 0);
    HitWhole(e, d1.hits, k);
    hide Covers;
    DStepOn(e, d0, d1, IoDone(k));
    d2 := DNext(e, d1, IoDone(k));
  }

  // --------------------------------------------------------- all the way through

  function Rank(d: DataSt): nat {
    match d.stage
    case Checking => 3
    case Inserting => 2
    case Submitting => 1
    case Idle => 0
  }

  /** What is left of the current stage. */
  function Left(d: DataSt): nat {
    if d.stage.Inserting? then (if OlIns(d) < d.taken then d.taken - OlIns(d) else 0)
    else if d.stage.Submitting? then |d.list| else 0
  }

  function Less(a: nat, b: nat): nat { if a < b then b - a else 0 }

  lemma Counters(e: Env, d: DataSt)
    requires DSane(e, d)
    ensures d.gone <= d.olDel <= d.gone + 1 && d.olDel <= d.batch <= OlIns(d) <= d.taken <= e.acked <= |e.ls|
    ensures d.stage.Idle? ==> d.batch == d.taken
    ensures d.olDel == d.gone ==> d.notify == {}
  {
    hide MapOk, Flight, HitsOk, PendOk, Sending, Once;
  }

  /** A step of the submit task, if it is in the middle of a batch. */
  function SubmitStep(d: DataSt): DStep
    requires !d.stage.Idle?
  {
    match d.stage
    case Checking => Permanent
    case Inserting => if OlIns(d) < d.taken then OlInsert else Sort(Direct(d, |d.q|))
    case Submitting => if d.list != [] then DirectSubmit else Enqueue
  }

  lemma SubmitCan(e: Env, d: DataSt)
    requires DSane(e, d) && LogReady(e) && !d.stage.Idle?
    ensures DEnabled(e, d, SubmitStep(d))
    ensures var d2 := DNext(e, d, SubmitStep(d));
      && d2.gone == d.gone && d2.olDel == d.olDel && d2.notify == d.notify && d2.taken == d.taken
      && (Rank(d2) < Rank(d) || (Rank(d2) == Rank(d) && Left(d2) < Left(d)))
  {
    Counters(e, d);
    if d.stage.Checking? {
      CheckedTaken(e, d);
    }
    hide DSane, LogReady, Direct;
  }

  lemma CheckedTaken(e: Env, d: DataSt)
    requires DSane(e, d) && LogReady(e) && d.stage.Checking?
    ensures 0 < d.taken <= |e.ls| && End(e.ls[d.taken - 1]) <= e.permanent
  {
    Counters(e, d);
    hide DInv;
  }

  lemma HeadSent(e: Env, d: DataSt)
    requires DSane(e, d) && d.olDel == d.gone < d.batch
    ensures d.q != [] && d.olDel in d.submitted && d.olDel < |e.ls|
  {
    Counters(e, d);
    hide DInv;
    HeadReady(e, d);
  }

  /** The measure of DataDrains goes down. */
  ghost predicate Nearer(e: Env, d: DataSt, d2: DataSt) {
    || Less(d2.gone, e.acked) < Less(d.gone, e.acked)
    || (d2.gone == d.gone && (
        || (d.olDel == d.gone != d2.olDel)
        || ((d2.olDel == d2.gone <==> d.olDel == d.gone) && (
            || |d2.notify| < |d.notify|
            || (|d2.notify| == |d.notify| && (
                || Less(d2.taken, e.acked) < Less(d.taken, e.acked)
                || (d2.taken == d.taken && (Rank(d2) < Rank(d) || (Rank(d2) == Rank(d) && Left(d2) < Left(d))))))))))
  }

  /** A step is possible and leads nearer to the end. */
  ghost predicate Good(e: Env, d: DataSt, t: DStep) {
    DEnabled(e, d, t) && Nearer(e, d, DNext(e, d, t))
  }

  lemma NotifyGood(e: Env, d: DataSt, k: nat)
    requires k in d.notify
    ensures Good(e, d, NotifySubmit(k))
  {
    hide Rank, Left, Less;
    assert d.notify == (d.notify - {k}) + {k};
  }

  lemma PendGood(e: Env, d: DataSt)
    requires d.notify == {} && d.olDel == d.gone + 1 <= e.acked
    ensures Good(e, d, PendDelete)
  {
    hide Rank, Left;
  }

  lemma SubmitGood(e: Env, d: DataSt)
    requires DSane(e, d) && LogReady(e) && !d.stage.Idle?
    ensures Good(e, d, SubmitStep(d))
  {
    hide DSane, LogReady, DEnabled, DNext, Rank, Left, Less, SubmitStep;
    SubmitCan(e, d);
  }

  lemma DeleteGood(e: Env, d: DataSt)
    requires DSane(e, d) && d.olDel == d.gone < d.batch && d.olDel in d.finished
    ensures Good(e, d, OlDelete)
  {
    HeadSent(e, d);
    hide DSane, Rank, Left, Less, ReleasedIds, Delete;
  }

  lemma TakeGood(e: Env, d: DataSt)
    requires d.stage.Idle? && d.taken < e.acked
    ensures Good(e, d, Take(e.acked - d.taken))
  {
    hide Rank, Left;
  }

  /** All acknowledged writes can be brought through. */
  lemma {:induction false} DataDrains(e: Env, d0: DataSt, d: DataSt) returns (d2: DataSt)
    requires DLeads(e, d0, d) && DSane(e, d) && LogReady(e)
    ensures DLeads(e, d0, d2) && DSane(e, d2) && d2.gone == e.acked
    decreases Less(d.gone, e.acked), if d.olDel == d.gone then 1 else 0, |d.notify|, Less(d.taken, e.acked),
              Rank(d), Left(d), if d.olDel in d.finished then 0 else 1
  {
    Counters(e, d);
    hide DLeads, DSane, LogReady, DEnabled, DNext, Nearer, Good, Less, SubmitStep;
    if d.notify != {} {
      var k :| k in d.notify;
      NotifyGood(e, d, k);
      d2 := AfterStep(e, d0, d, NotifySubmit(k));
    } else if d.olDel == d.gone + 1 {
      PendGood(e, d);
      d2 := AfterStep(e, d0, d, PendDelete);
    } else if !d.stage.Idle? {
      SubmitGood(e, d);
      d2 := AfterStep(e, d0, d, SubmitStep(d));
    } else if d.gone < d.batch {
      d2 := AfterHead(e, d0, d);
    } else if d.taken < e.acked {
      TakeGood(e, d);
      d2 := AfterStep(e, d0, d, Take(e.acked - d.taken));
    } else {
      d2 := d;
    }
  }

  /** The head of the queue: its I/O ends, then it leaves the overlap map. */
  lemma {:induction false} AfterHead(e: Env, d0: DataSt, d: DataSt) returns (d2: DataSt)
    requires DLeads(e, d0, d) && DSane(e, d) && LogReady(e) && d.olDel == d.gone < d.batch
    ensures DLeads(e, d0, d2) && DSane(e, d2) && d2.gone == e.acked
    decreases Less(d.gone, e.acked), if d.olDel == d.gone then 1 else 0, |d.notify|, Less(d.taken, e.acked),
              Rank(d), Left(d), if d.olDel in d.finished then 0 else 1, 1
  {
    HeadSent(e, d);
    hide DLeads, DSane, LogReady, DEnabled, DNext, Nearer, Good, Less;
    if d.olDel in d.finished {
      DeleteGood(e, d);
      d2 := AfterStep(e, d0, d, OlDelete);
    } else {
      var d1 := FinishIo(e, d0, d, d.olDel);
      assert d1.olDel in d1.finished;
      d2 := DataDrains(e, d0, d1);
    }
  }

  lemma {:induction false} AfterStep(e: Env, d0: DataSt, d: DataSt, t: DStep) returns (d2: DataSt)
    requires DLeads(e, d0, d) && DSane(e, d) && LogReady(e) && Good(e, d, t)
    ensures DLeads(e, d0, d2) && DSane(e, d2) && d2.gone == e.acked
    decreases Less(d.gone, e.acked), if d.olDel == d.gone then 1 else 0, |d.notify|, Less(d.taken, e.acked),
              Rank(d), Left(d), if d.olDel in d.finished then 0 else 1, 0
  {
    hide DLeads, DSane, LogReady, DEnabled, DNext, Less, Rank, Left;
    DStepOn(e, d0, d, t);
    d2 := DataDrains(e, d0, DNext(e, d, t));
  }
}
