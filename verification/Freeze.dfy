/** Stopping the write pipeline: the frozen queue and iocore_freeze of module/io.c. */
module Freeze {
  /** logpack_submit_queue and frozen_queue with the two freeze flags. */
  class IoQueues<T(==)> {
    var submit: seq<T>
    var frozen: seq<T>
    var isFrozenSys: bool
    var isFrozenUsr: bool
    ghost var arrived: seq<T>
    ghost var taken: seq<T>

    /** What was taken for processing, what waits to be, and what waits for the melt
        are together what arrived, in order; nothing waits for a melt that will not
        come. */
    ghost predicate Valid()
      reads this
    {
      arrived == taken + submit + frozen && (frozen != [] ==> IsFrozen())
    }

    predicate IsFrozen()
      reads this
    {
      isFrozenSys || isFrozenUsr
    }

    constructor ()
      ensures Valid() && arrived == []
    {
      submit, frozen, isFrozenSys, isFrozenUsr, arrived, taken := [], [], false, false, [], [];
    }

    /** push_into_lpack_submit_queue */
    method Push(x: T) returns (nonEmpty: bool)
      requires Valid()
      modifies this
      ensures Valid() && arrived == old(arrived) + [x] && taken == old(taken) && nonEmpty == (submit != [])
      ensures IsFrozen() == old(IsFrozen()) && (IsFrozen() ==> submit == old(submit))
    {
      arrived := arrived + [x];
      if IsFrozen() {
        frozen := frozen + [x];
      } else {
        submit, frozen := submit + frozen + [x], [];
      }
      nonEmpty := submit != [];
    }

    /** freeze_detail */
    method Freeze(usr: bool)
      requires Valid()
      modifies this
      ensures Valid() && IsFrozen() && arrived == old(arrived) && taken == old(taken) && submit == old(submit)
      ensures isFrozenUsr == (usr || old(isFrozenUsr)) && isFrozenSys == (!usr || old(isFrozenSys))
    {
      if usr {
        isFrozenUsr := true;
      } else {
        isFrozenSys := true;
      }
    }

    /** melt_detail */
    method Melt(usr: bool) returns (melted: bool)
      requires Valid()
      modifies this
      ensures Valid() && arrived == old(arrived) && taken == old(taken) && melted == !IsFrozen()
      ensures isFrozenUsr == (!usr && old(isFrozenUsr)) && isFrozenSys == (usr && old(isFrozenSys))
      ensures if melted then frozen == [] && submit == old(submit + frozen) else submit == old(submit)
    {
      if usr {
        isFrozenUsr := false;
      } else {
        isFrozenSys := false;
      }
      melted := !IsFrozen();
      if melted {
        submit, frozen := submit + frozen, [];
      }
    }

    /** The dequeue of task_submit_logpack_list: up to `bulk` requests, oldest first. */
    method Dequeue(bulk: nat) returns (xs: seq<T>)
      requires Valid() && bulk > 0
      modifies this
      ensures Valid() && arrived == old(arrived) && taken == old(taken) + xs && old(submit) == xs + submit
      ensures |xs| == if |old(submit)| < bulk then |old(submit)| else bulk
    {
      var n := if |submit| < bulk then |submit| else bulk;
      xs := submit[..n];
      taken := taken + xs;
      submit := submit[n..];
    }
  }

  // ------------------------------------------------------- waiting for the end

  /** A created pack: where the next one starts, its requests, and whether it is a
      zero-size flush, whose only request ends in the wait task. */
  datatype FPack = FPack(next: nat, nBios: nat, zero: bool)

  /** The counters iocore_freeze looks at and what moves them. */
  datatype FSt = FSt(
    base: nat,
    frozenUsr: bool,
    queued: nat,          // length of logpack_submit_queue
    inHand: nat,          // dequeued, not yet in a pack
    packs: seq<FPack>,
    nWait: nat,           // packs through the wait task
    nAdded: nat,          // of these, counted in n_pending_gc
    nTaken: nat,          // taken by the gc worker
    nKilled: nat,         // of these, all requests destroyed
    nDone: nat,           // of these, subtracted from n_pending_gc again
    wrote: bool,          // written_lsid is updated for the current gc list
    written: nat,
    started: int,         // n_started_write_bio
    pendingGc: int,       // n_pending_gc
    stage: Stage)

  /** How far iocore_freeze has come. */
  datatype Stage = NotFreezing | Frozen | QueueEmpty | NoIo | Returned

  datatype FStep =
    | Push
    | FreezeUsr
    | MeltSys(n: nat)
    | Dequeue(n: nat)
    | Create(ps: seq<FPack>)
    | Wait
    | AddPending
    | GcTake(n: nat)
    | GcKill
    | GcWrite
    | GcDone
    | SeeQueueEmpty
    | SeeNoIo
    | SeeNoGc

  function Init(base: nat): FSt {
    FSt(base, false, 0, 0, [], 0, 0, 0, 0, 0, false, base, 0, 0, NotFreezing)
  }

  /** The lsid behind the first `n` packs. */
  function LsidAfter(s: FSt, n: nat): nat
    requires n <= |s.packs|
  {
    if n == 0 then s.base else s.packs[n - 1].next
  }

  function Bios(ps: seq<FPack>): nat
    decreases |ps|
  {
    if ps == [] then 0 else Bios(ps[..|ps| - 1]) + ps[|ps| - 1].nBios
  }

  /** New packs continue the lsids; a zero-size flush takes none. */
  predicate PacksOk(latest: nat, ps: seq<FPack>) {
    forall i | 0 <= i < |ps| :: PackOk(StartOf(latest, ps, i), ps[i])
  }

  function StartOf(latest: nat, ps: seq<FPack>, i: nat): nat
    requires i <= |ps|
  {
    if i == 0 then latest else ps[i - 1].next
  }

  predicate PackOk(start: nat, p: FPack) {
    p.nBios > 0 && (p.zero ==> p.nBios == 1 && p.next == start)
  }

  predicate Can(s: FSt, t: FStep) {
    match t
    case Push => true
    case FreezeUsr => s.stage.NotFreezing?
    case MeltSys(n) => n > 0 ==> !s.frozenUsr
    case Dequeue(n) => 0 < n <= s.queued && s.inHand == 0
    case Create(ps) => s.inHand > 0 && Bios(ps) == s.inHand && PacksOk(LsidAfter(s, |s.packs|), ps)
    case Wait => s.nWait < |s.packs|
    case AddPending => s.nAdded < s.nWait
    case GcTake(n) => s.nTaken == s.nDone && 0 < n && s.nTaken + n <= s.nAdded
    case GcKill => s.nKilled < s.nTaken <= |s.packs|
    case GcWrite => s.nKilled == s.nTaken && s.nDone < s.nTaken <= |s.packs| && !s.wrote
    case GcDone => s.wrote
    case SeeQueueEmpty => s.stage.Frozen? && s.queued == 0
    case SeeNoIo => s.stage.QueueEmpty? && s.started == 0
    case SeeNoGc => s.stage.NoIo? && s.pendingGc <= 0
  }

  /** Requests of a pack that end in the wait task, or in gc. */
  function InWait(p: FPack): nat { if p.zero then p.nBios else 0 }
  function InGc(p: FPack): nat { if p.zero then 0 else p.nBios }

  function Do(s: FSt, t: FStep): FSt
    requires Can(s, t)
  {
    match t
    case Push => if s.frozenUsr then s else s.(queued := s.queued + 1)
    case FreezeUsr => s.(frozenUsr := true, stage := Frozen)
    case MeltSys(n) => s.(queued := s.queued + n)
    case Dequeue(n) => s.(queued := s.queued - n, inHand := n, started := s.started + n)
    case Create(ps) => s.(inHand := 0, packs := s.packs + ps)
    case Wait => s.(nWait := s.nWait + 1, started := s.started - InWait(s.packs[s.nWait]))
    case AddPending => s.(nAdded := s.nWait, pendingGc := s.pendingGc + s.nWait - s.nAdded)
    case GcTake(n) => s.(nTaken := s.nTaken + n)
    case GcKill => s.(nKilled := s.nKilled + 1, started := s.started - InGc(s.packs[s.nKilled]))
    case GcWrite => s.(written := LsidAfter(s, s.nTaken), wrote := true)
    case GcDone => s.(pendingGc := s.pendingGc - (s.nTaken - s.nDone), nDone := s.nTaken, wrote := false)
    case SeeQueueEmpty => s.(stage := QueueEmpty)
    case SeeNoIo => s.(stage := NoIo)
    case SeeNoGc => s.(stage := Returned)
  }

  /** Requests alive in packs `i` and up: those of zero-size flushes from `w` on,
      those of data packs from `k` on. */
  function Alive(packs: seq<FPack>, w: nat, k: nat): nat
    decreases |packs|
  {
    if packs == [] then 0
    else
      var n := |packs| - 1;
      Alive(packs[..n], w, k) + (if w <= n then InWait(packs[n]) else 0) + if k <= n then InGc(packs[n]) else 0
  }

  ghost predicate Counted(s: FSt) {
    && s.nDone <= s.nKilled <= s.nTaken <= s.nAdded <= s.nWait <= |s.packs|
    && PacksOk(s.base, s.packs)
    && s.started == s.inHand + Alive(s.packs, s.nWait, s.nKilled)
    && s.pendingGc == s.nAdded - s.nDone
    && s.written == LsidAfter(s, if s.wrote then s.nTaken else s.nDone)
    && (s.wrote ==> s.nDone < s.nKilled == s.nTaken)
  }

  ghost predicate Freezing(s: FSt) {
    && (!s.stage.NotFreezing? ==> s.frozenUsr)
    && (s.stage.QueueEmpty? || s.stage.NoIo? || s.stage.Returned? ==> s.queued == 0)
    && (s.stage.NoIo? || s.stage.Returned? ==> s.started == 0)
    && (s.stage.Returned? ==> s.written == LsidAfter(s, |s.packs|))
  }

  ghost predicate Inv(s: FSt) {
    Counted(s) && Freezing(s)
  }

  lemma {:induction false} AliveMore(packs: seq<FPack>, ps: seq<FPack>, w: nat, k: nat)
    requires w <= |packs| && k <= |packs|
    ensures Alive(packs + ps, w, k) == Alive(packs, w, k) + Bios(ps)
    decreases |ps|
  {
    if ps == [] {
      assert packs + ps == packs;
    } else {
      var n := |ps| - 1;
      AliveMore(packs, ps[..n], w, k);
      assert (packs + ps)[..|packs + ps| - 1] == packs + ps[..n];
    }
  }

  lemma {:induction false} AliveLess(packs: seq<FPack>, w: nat, k: nat)
    ensures w < |packs| ==> Alive(packs, w + 1, k) == Alive(packs, w, k) - InWait(packs[w])
    ensures k < |packs| ==> Alive(packs, w, k + 1) == Alive(packs, w, k) - InGc(packs[k])
    ensures w >= |packs| ==> Alive(packs, w + 1, k) == Alive(packs, w, k)
    ensures k >= |packs| ==> Alive(packs, w, k + 1) == Alive(packs, w, k)
    decreases |packs|
  {
    if packs != [] {
      AliveLess(packs[..|packs| - 1], w, k);
    }
  }

  /** With no request alive, all data packs are through gc's first half. */
  lemma {:induction false} NoneAlive(packs: seq<FPack>, w: nat, k: nat, i: nat)
    requires Alive(packs, w, k) == 0 && (forall j | 0 <= j < |packs| :: packs[j].nBios > 0) && k <= i < |packs|
    ensures packs[i].zero
    decreases |packs|
  {
    if i < |packs| - 1 {
      NoneAlive(packs[..|packs| - 1], w, k, i);
    }
  }

  /** Zero-size flushes take no lsid. */
  lemma {:induction false} ZeroTakesNone(s: FSt, n: nat, m: nat)
    requires n <= m <= |s.packs| && PacksOk(s.base, s.packs) && forall i | n <= i < m :: s.packs[i].zero
    ensures LsidAfter(s, m) == LsidAfter(s, n)
    decreases m
  {
    if n < m {
      ZeroTakesNone(s, n, m - 1);
    }
  }

  lemma PacksJoin(base: nat, packs: seq<FPack>, ps: seq<FPack>)
    requires PacksOk(base, packs) && PacksOk(StartOf(base, packs, |packs|), ps)
    ensures PacksOk(base, packs + ps)
  {
    var all := packs + ps;
    forall i | 0 <= i < |all| ensures PackOk(StartOf(base, all, i), all[i]) {
      if i < |packs| {
        assert all[i] == packs[i] && StartOf(base, all, i) == StartOf(base, packs, i);
      } else {
        var j := i - |packs|;
        assert all[i] == ps[j] && StartOf(base, all, i) == StartOf(StartOf(base, packs, |packs|), ps, j);
      }
    }
  }

  lemma CreateCounted(s: FSt, ps: seq<FPack>)
    requires Counted(s) && Can(s, Create(ps))
    ensures Counted(Do(s, Create(ps)))
  {
    hide Alive, Bios, PacksOk, LsidAfter;
    AliveMore(s.packs, ps, s.nWait, s.nKilled);
    LastLsid(s);
    PacksJoin(s.base, s.packs, ps);
    SameLsid(s, ps, if s.wrote then s.nTaken else s.nDone);
  }

  lemma LastLsid(s: FSt)
    ensures LsidAfter(s, |s.packs|) == StartOf(s.base, s.packs, |s.packs|)
  {
  }

  lemma SameLsid(s: FSt, ps: seq<FPack>, n: nat)
    requires n <= |s.packs|
    ensures LsidAfter(s.(inHand := 0, packs := s.packs + ps), n) == LsidAfter(s, n)
  {
  }

  lemma EndCounted(s: FSt, t: FStep)
    requires Counted(s) && Can(s, t) && (t.Wait? || t.GcKill?)
    ensures Counted(Do(s, t))
  {
    AliveLess(s.packs, s.nWait, s.nKilled);
    hide Alive, Bios, PacksOk;
  }

  lemma OtherCounted(s: FSt, t: FStep)
    requires Counted(s) && Can(s, t) && !t.Create? && !t.Wait? && !t.GcKill?
    ensures Counted(Do(s, t))
  {
    hide Alive, Bios, PacksOk;
  }

  lemma CountedStep(s: FSt, t: FStep)
    requires Counted(s) && Can(s, t)
    ensures Counted(Do(s, t))
  {
    hide Counted, Can, Do;
    if t.Create? {
      CreateCounted(s, t.ps);
    } else if t.Wait? || t.GcKill? {
      EndCounted(s, t);
    } else {
      OtherCounted(s, t);
    }
  }

  /** With no request alive the last lsid is the one behind the packs gc has killed. */
  lemma LatestIs(s: FSt, n: nat)
    requires Counted(s) && s.started == 0 && s.nKilled <= n <= |s.packs|
    ensures LsidAfter(s, |s.packs|) == LsidAfter(s, n) && s.inHand == 0
  {
    forall i | n <= i < |s.packs| ensures s.packs[i].zero {
      NoneAlive(s.packs, s.nWait, s.nKilled, i);
    }
    ZeroTakesNone(s, n, |s.packs|);
  }

  lemma FreezingStep(s: FSt, t: FStep)
    requires Inv(s) && Can(s, t)
    ensures Freezing(Do(s, t))
  {
    hide Alive, Bios;
    if s.started == 0 {
      LatestIs(s, s.nKilled);
      if t.GcWrite? {
        LatestIs(s, s.nTaken);
      }
    }
    CountedStep(s, t);
    if s.started == 0 && s.queued == 0 {
      StartedSame(s, t);
    }
  }

  /** Behind the empty queue nothing new starts. */
  lemma StartedSame(s: FSt, t: FStep)
    requires Counted(s) && Can(s, t) && s.started == 0 && s.queued == 0
    ensures Do(s, t).started == 0
  {
    CountedStep(s, t);
    LatestIs(s, s.nKilled);
    hide PacksOk;
  }

  lemma StepInv(s: FSt, t: FStep)
    requires Inv(s) && Can(s, t)
    ensures Inv(Do(s, t))
  {
    CountedStep(s, t);
    FreezingStep(s, t);
  }

  ghost predicate Follows(s: FSt, s2: FSt) {
    exists t :: Can(s, t) && s2 == Do(s, t)
  }

  ghost predicate Run(base: nat, run: seq<FSt>) {
    run != [] && run[0] == Init(base) && forall i | 0 < i < |run| :: Follows(run[i - 1], run[i])
  }

  lemma {:induction false} RunInv(base: nat, run: seq<FSt>, i: nat)
    requires Run(base, run) && i < |run|
    ensures Inv(run[i])
    decreases i
  {
    if i == 0 {
      InitOk(base);
    } else {
      hide Inv, Can, Do;
      RunInv(base, run, i - 1);
      assert Follows(run[i - 1], run[i]);
      var t :| Can(run[i - 1], t) && run[i] == Do(run[i - 1], t);
      StepInv(run[i - 1], t);
    }
  }

  lemma InitOk(base: nat)
    ensures Inv(Init(base))
  {
  }

  /** When iocore_freeze has returned, latest equals written, no write is in flight
      and none waits to start, and so it stays. */
  lemma FreezeIsComplete(base: nat, run: seq<FSt>, i: nat)
    requires Run(base, run) && i < |run| && run[i].stage.Returned?
    ensures run[i].written == LsidAfter(run[i], |run[i].packs|)
    ensures run[i].started == 0 && run[i].inHand == 0 && run[i].queued == 0
  {
    RunInv(base, run, i);
    LatestIs(run[i], run[i].nKilled);
  }

  // ------------------------------------------------------ the freeze comes to an end

  ghost predicate Path(ss: seq<FSt>) {
    ss != [] && forall i | 0 < i < |ss| :: Follows(ss[i - 1], ss[i])
  }

  ghost predicate Leads(s: FSt, s2: FSt) {
    exists ss :: Path(ss) && ss[0] == s && ss[|ss| - 1] == s2
  }

  lemma LeadsSelf(s: FSt)
    ensures Leads(s, s)
  {
    assert Path([s]);
  }

  lemma LeadsThen(s: FSt, s1: FSt, t: FStep)
    requires Leads(s, s1) && Can(s1, t)
    ensures Leads(s, Do(s1, t))
  {
    hide Can, Do;
    var ss :| Path(ss) && ss[0] == s && ss[|ss| - 1] == s1;
    var more := ss + [Do(s1, t)];
    assert Follows(s1, Do(s1, t));
    hide Follows;
    forall i | 0 < i < |more| ensures Follows(more[i - 1], more[i]) {
      if i < |ss| {
        assert Follows(ss[i - 1], ss[i]);
      }
    }
    assert Path(more);
  }

  /** What the tasks do next once the freeze has begun. */
  function NextStep(s: FSt): FStep {
    if s.inHand > 0 then Create([FPack(LsidAfter(s, |s.packs|), s.inHand, false)])
    else if s.queued > 0 then Dequeue(s.queued)
    else if s.nWait < |s.packs| then Wait
    else if s.nAdded < s.nWait then AddPending
    else if s.nKilled < s.nTaken then GcKill
    else if s.wrote then GcDone
    else if s.nDone < s.nTaken then GcWrite
    else if s.nTaken < s.nAdded then GcTake(s.nAdded - s.nTaken)
    else if s.stage.Frozen? then SeeQueueEmpty
    else if s.stage.QueueEmpty? then SeeNoIo
    else SeeNoGc
  }

  function Less(a: nat, b: nat): nat { if a < b then b - a else 0 }

  function StageLeft(s: FSt): nat {
    match s.stage
    case NotFreezing => 4
    case Frozen => 3
    case QueueEmpty => 2
    case NoIo => 1
    case Returned => 0
  }

  /** The measure of FreezeEnds goes down. */
  ghost predicate Sooner(s: FSt, s2: FSt) {
    || s2.queued < s.queued
    || (s2.queued == s.queued && (
        || s2.inHand < s.inHand
        || (s2.inHand == s.inHand && (
            || Less(s2.nWait, |s2.packs|) < Less(s.nWait, |s.packs|)
            || (s2.packs == s.packs && s2.nWait == s.nWait && SoonerGc(s, s2))))))
  }

  ghost predicate SoonerGc(s: FSt, s2: FSt) {
    || Less(s2.nAdded, s2.nWait) < Less(s.nAdded, s.nWait)
    || (s2.nAdded == s.nAdded && (
        || Less(s2.nTaken, s2.nAdded) < Less(s.nTaken, s.nAdded)
        || (s2.nTaken == s.nTaken && (
            || Less(s2.nKilled, s2.nTaken) < Less(s.nKilled, s.nTaken)
            || (s2.nKilled == s.nKilled && (
                || Less(s2.nDone, s2.nTaken) < Less(s.nDone, s.nTaken)
                || (s2.nDone == s.nDone && (
                    || (s2.wrote && !s.wrote)
                    || (s2.wrote == s.wrote && StageLeft(s2) < StageLeft(s))))))))))
  }

  lemma {:induction false} AllDead(packs: seq<FPack>, w: nat, k: nat)
    requires |packs| <= w && |packs| <= k
    ensures Alive(packs, w, k) == 0
    decreases |packs|
  {
    if packs != [] {
      AllDead(packs[..|packs| - 1], w, k);
    }
  }

  lemma OneBios(p: FPack)
    ensures Bios([p]) == p.nBios
  {
    assert [p][..0] == [];
  }

  lemma NextCan(s: FSt)
    requires Inv(s) && s.frozenUsr && !s.stage.Returned? && !s.stage.NotFreezing?
    ensures Can(s, NextStep(s))
  {
    OneBios(FPack(LsidAfter(s, |s.packs|), s.inHand, false));
    if s.nWait == s.nKilled == |s.packs| {
      AllDead(s.packs, s.nWait, s.nKilled);
    }
    hide Alive, Bios;
  }

  lemma NextSooner(s: FSt)
    requires Inv(s) && s.frozenUsr && !s.stage.Returned? && !s.stage.NotFreezing? && Can(s, NextStep(s))
    ensures Sooner(s, Do(s, NextStep(s))) && Do(s, NextStep(s)).frozenUsr && !Do(s, NextStep(s)).stage.NotFreezing?
  {
    hide Alive, Bios, PacksOk, LsidAfter;
  }

  lemma {:induction false} FreezeEnds(s0: FSt, s: FSt) returns (s2: FSt)
    requires Leads(s0, s) && Inv(s) && s.frozenUsr && !s.stage.NotFreezing?
    ensures Leads(s0, s2) && Inv(s2) && s2.stage.Returned?
    decreases s.queued, s.inHand, Less(s.nWait, |s.packs|), Less(s.nAdded, s.nWait), Less(s.nTaken, s.nAdded),
              Less(s.nKilled, s.nTaken), Less(s.nDone, s.nTaken), if s.wrote then 0 else 1, StageLeft(s)
  {
    s2 := s;
    if !s.stage.Returned? {
      NextCan(s);
      NextSooner(s);
      hide Leads, Inv, Can, Do, NextStep, Less, StageLeft;
      LeadsThen(s0, s, NextStep(s));
      StepInv(s, NextStep(s));
      s2 := FreezeEnds(s0, Do(s, NextStep(s)));
    }
  }

  /** iocore_freeze comes to its end: from every state of every run the tasks can
      bring it there, whatever is queued or in flight. */
  lemma FreezeCanReturn(base: nat, run: seq<FSt>, i: nat) returns (s2: FSt)
    requires Run(base, run) && i < |run|
    ensures Leads(run[i], s2) && Inv(s2) && s2.stage.Returned? && s2.written == LsidAfter(s2, |s2.packs|)
  {
    RunInv(base, run, i);
    var s := run[i];
    LeadsSelf(s);
    if s.stage.NotFreezing? {
      StepInv(s, FreezeUsr);
      LeadsThen(s, s, FreezeUsr);
      s := Do(s, FreezeUsr);
    }
    hide Leads, Run;
    FreezeNow(s);
    s2 := FreezeEnds(run[i], s);
  }

  lemma FreezeNow(s: FSt)
    requires Inv(s) && !s.stage.NotFreezing?
    ensures s.frozenUsr
  {
    hide Counted;
  }
}
