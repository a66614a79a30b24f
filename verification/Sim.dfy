/** The abstract protocol of sim/consistency/walb_algorithm.py: write packs whose
    operations run under guards, and its crash recovery. */
module Sim {
  import opened Words
  import opened Disk

  /** The operations of a write pack that have been executed. */
  datatype Bits = Bits(submitL: bool, completeL: bool, submitD: bool, completeD: bool,
                       writeV: bool, writeR: bool, endReq: bool)

  datatype Op = SUBMIT_LPACK | COMPLETE_LPACK | SUBMIT_DPACK | COMPLETE_DPACK | WRITE_VSTORAGE | WRITE_RSTORAGE | END_REQ

  const NONE := Bits(false, false, false, false, false, false, false)
  const ALL := Bits(true, true, true, true, true, true, true)

  function SetSt(b: Bits, op: Op): Bits {
    match op
    case SUBMIT_LPACK => b.(submitL := true)
    case COMPLETE_LPACK => b.(completeL := true)
    case SUBMIT_DPACK => b.(submitD := true)
    case COMPLETE_DPACK => b.(completeD := true)
    case WRITE_VSTORAGE => b.(writeV := true)
    case WRITE_RSTORAGE => b.(writeR := true)
    case END_REQ => b.(endReq := true)
  }

  /** A pack is the list of its write requests. */
  type WPack = seq<Write>

  ghost predicate PackOverlap(p: WPack, q: WPack) {
    exists i, j :: 0 <= i < |p| && 0 <= j < |q| && Overlap(p[i], q[j])
  }

  /** WritePackState.isEnd */
  predicate IsEnd(fast: bool, b: Bits) {
    b.endReq && if fast then b.completeD else b.writeV
  }

  // ---------------------------------------------------- what packs leave behind

  /** The last request of the pack that covers the sector, or -1. */
  function LastIn(p: WPack, x: nat): (j: int)
    ensures -1 <= j < |p|
    ensures j >= 0 ==> Covers(p[j], x)
    ensures forall k | j < k < |p| :: !Covers(p[k], x)
    decreases |p|
  {
    if p == [] then -1
    else if Covers(p[|p| - 1], x) then |p| - 1
    else LastIn(p[..|p| - 1], x)
  }

  /** What a sector holds once the pack is written over `was`. */
  function Over(p: WPack, x: nat, was: Sector): Sector {
    var j := LastIn(p, x);
    if j < 0 then was else p[j].data[x - p[j].pos]
  }

  lemma OverAny(p: WPack, x: nat, a: Sector, b: Sector)
    ensures if LastIn(p, x) >= 0 then Over(p, x, a) == Over(p, x, b) else Over(p, x, a) == a
  {
  }

  lemma ApplyPackAt(d: Image, p: WPack, x: nat)
    requires AllFit(p, |d|) && x < |d|
    ensures Apply(d, p)[x] == Over(p, x, d[x])
  {
    var j := LastIn(p, x);
    if j < 0 {
      ApplyNone(d, p, x);
    } else {
      ApplyLast(d, p, x, j);
    }
  }

  /** The last of the packs marked in `sel` below `n` that covers the sector. */
  function LastPack(packs: seq<WPack>, sel: seq<bool>, x: nat, n: nat): (i: int)
    requires n <= |packs| == |sel|
    ensures -1 <= i < n
    ensures i >= 0 ==> sel[i] && LastIn(packs[i], x) >= 0
    ensures forall k | i < k < n && sel[k] :: LastIn(packs[k], x) < 0
    decreases n
  {
    if n == 0 then -1
    else if sel[n - 1] && LastIn(packs[n - 1], x) >= 0 then n - 1
    else LastPack(packs, sel, x, n - 1)
  }

  /** The sector after the marked packs below `n` were written over `was` in order. */
  function Overlaid(packs: seq<WPack>, sel: seq<bool>, x: nat, n: nat, was: Sector): Sector
    requires n <= |packs| == |sel|
  {
    var i := LastPack(packs, sel, x, n);
    if i < 0 then was else Over(packs[i], x, was)
  }

  lemma OverlaidStep(packs: seq<WPack>, sel: seq<bool>, x: nat, n: nat, was: Sector)
    requires n < |packs| == |sel|
    ensures Overlaid(packs, sel, x, n + 1, was)
         == if sel[n] then Over(packs[n], x, Overlaid(packs, sel, x, n, was)) else Overlaid(packs, sel, x, n, was)
  {
  }

  /** All packs below `n`, one after the other. */
  function InOrder(d: Image, packs: seq<WPack>, n: nat): (r: Image)
    requires n <= |packs|
    ensures |r| == |d|
    decreases n
  {
    if n == 0 then d else Apply(InOrder(d, packs, n - 1), packs[n - 1])
  }

  function Every(n: nat): (s: seq<bool>)
    ensures |s| == n && forall i | 0 <= i < n :: s[i]
  {
    seq(n, i => true)
  }

  lemma {:induction false} InOrderAt(d: Image, packs: seq<WPack>, n: nat, x: nat)
    requires n <= |packs| && x < |d| && forall i | 0 <= i < |packs| :: AllFit(packs[i], |d|)
    ensures InOrder(d, packs, n)[x] == Overlaid(packs, Every(|packs|), x, n, d[x])
    decreases n
  {
    if n > 0 {
      InOrderAt(d, packs, n - 1, x);
      ApplyPackAt(InOrder(d, packs, n - 1), packs[n - 1], x);
      OverlaidStep(packs, Every(|packs|), x, n - 1, d[x]);
    }
  }

  lemma CoveredOverlap(p: WPack, q: WPack, x: nat)
    requires LastIn(p, x) >= 0 && LastIn(q, x) >= 0
    ensures PackOverlap(p, q)
  {
    assert Overlap(p[LastIn(p, x)], q[LastIn(q, x)]);
  }

  // ------------------------------------------------------------------ guards

  /** isReadyToSubmitDpack */
  ghost predicate ReadyToSubmitDpack(fast: bool, packs: seq<WPack>, st: seq<Bits>, first: nat, i: nat)
    requires |st| == |packs| && i < |packs|
  {
    forall j | first <= j < i ::
      (fast || st[j].completeL) && (PackOverlap(packs[j], packs[i]) ==> st[j].completeD)
  }

  /** isReadyToWriteVstorage */
  predicate ReadyToWriteVstorage(st: seq<Bits>, first: nat, i: nat)
    requires i < |st|
  {
    forall j | first <= j < i :: st[j].writeV
  }

  /** WritePackState.getCandidates */
  ghost predicate Candidate(fast: bool, packs: seq<WPack>, st: seq<Bits>, first: nat, i: nat, op: Op)
    requires |st| == |packs| && i < |packs|
  {
    var b := st[i];
    match op
    case SUBMIT_LPACK => !b.submitL
    case COMPLETE_LPACK => !b.completeL && b.submitL
    case WRITE_VSTORAGE => !b.writeV && b.completeL && ReadyToWriteVstorage(st, first, i)
    case SUBMIT_DPACK => !b.submitD && (if fast then b.writeV else b.completeL)
                         && ReadyToSubmitDpack(fast, packs, st, first, i)
    case WRITE_RSTORAGE => !b.writeR && b.submitD
    case COMPLETE_DPACK => !b.completeD && b.writeR
    case END_REQ => !b.endReq && if fast then b.writeV else b.completeD
  }

  // --------------------------------------------------------------- invariant

  /** The bits of one pack. */
  predicate BitsOk(fast: bool, b: Bits) {
    && (b.writeV ==> b.completeL) && (b.submitD ==> b.completeL) && (fast && b.submitD ==> b.writeV)
    && (b.writeR ==> b.submitD) && (b.completeD ==> b.writeR)
    && (b.endReq ==> if fast then b.writeV else b.completeD)
  }

  /** The guards' effect over the packs: virtual storage is written in order, and a
      pack goes to real storage only with all logs before it complete and all
      overlapping packs before it through. */
  ghost predicate StatesOk(fast: bool, packs: seq<WPack>, st: seq<Bits>, first: nat, nV: nat) {
    && |st| == |packs| && first <= |packs| && nV <= |packs|
    && (forall i | 0 <= i < |st| :: BitsOk(fast, st[i]))
    && (forall i | 0 <= i < first :: IsEnd(fast, st[i]))
    && (forall i | 0 <= i < |st| :: st[i].writeV <==> i < nV)
    && (forall j, i | 0 <= j < i < |st| && st[i].submitD ::
          st[j].completeL && (PackOverlap(packs[j], packs[i]) ==> st[j].completeD))
  }

  /** `log` lists the packs in the order they were written to real storage. */
  ghost predicate LogOk(packs: seq<WPack>, st: seq<Bits>, log: seq<nat>)
    requires |st| == |packs|
  {
    && (forall a | 0 <= a < |log| :: log[a] < |st| && st[log[a]].writeR)
    && (forall i | 0 <= i < |st| && st[i].writeR :: i in log)
    && (forall a, b | 0 <= a < b < |log| && log[a] < |packs| && log[b] < |packs| && PackOverlap(packs[log[a]], packs[log[b]]) ::
          log[a] < log[b])
  }

  function ByLog(d: Image, packs: seq<WPack>, log: seq<nat>): (r: Image)
    ensures |r| == |d|
    decreases |log|
  {
    if log == [] then d
    else
      var before, i := ByLog(d, packs, log[..|log| - 1]), log[|log| - 1];
      if i < |packs| then Apply(before, packs[i]) else before
  }

  // ---------------------------------------------------------- steps keep it

  lemma StepStates(fast: bool, packs: seq<WPack>, st: seq<Bits>, first: nat, nV: nat, i: nat, op: Op)
    requires i < |packs| == |st| && StatesOk(fast, packs, st, first, nV) && Candidate(fast, packs, st, first, i, op)
    ensures op.WRITE_VSTORAGE? ==> i == nV
    ensures StatesOk(fast, packs, st[i := SetSt(st[i], op)], first, if op.WRITE_VSTORAGE? then nV + 1 else nV)
  {
    hide PackOverlap;
    if op.SUBMIT_DPACK? {
      forall j | 0 <= j < i ensures st[j].completeL && (PackOverlap(packs[j], packs[i]) ==> st[j].completeD) {
        assert j < first ==> IsEnd(fast, st[j]);
      }
    } else if op.WRITE_VSTORAGE? {
      FirstUnwritten(fast, packs, st, first, nV, i);
    }
  }

  lemma FirstUnwritten(fast: bool, packs: seq<WPack>, st: seq<Bits>, first: nat, nV: nat, i: nat)
    requires i < |packs| == |st| && StatesOk(fast, packs, st, first, nV) && !st[i].writeV && ReadyToWriteVstorage(st, first, i)
    ensures i == nV
  {
    forall j | 0 <= j < i ensures st[j].writeV {
      assert j < first ==> IsEnd(fast, st[j]);
    }
    if i > 0 {
      assert st[i - 1].writeV;
    }
  }

  lemma OverlapSymmetric(p: WPack, q: WPack)
    requires PackOverlap(p, q)
    ensures PackOverlap(q, p)
  {
    var i, j :| 0 <= i < |p| && 0 <= j < |q| && Overlap(p[i], q[j]);
    assert Overlap(q[j], p[i]);
  }

  lemma StepLog(fast: bool, packs: seq<WPack>, st: seq<Bits>, first: nat, nV: nat, log: seq<nat>, i: nat, op: Op)
    requires i < |packs| == |st| && StatesOk(fast, packs, st, first, nV) && LogOk(packs, st, log)
    requires Candidate(fast, packs, st, first, i, op)
    ensures LogOk(packs, st[i := SetSt(st[i], op)], if op.WRITE_RSTORAGE? then log + [i] else log)
  {
    if op.WRITE_RSTORAGE? {
      forall a | 0 <= a < |log| && PackOverlap(packs[log[a]], packs[i]) ensures log[a] < i {
        LaterNotWritten(fast, packs, st, first, nV, i, log[a]);
      }
      var log2, st2 := log + [i], st[i := SetSt(st[i], op)];
      hide PackOverlap, StatesOk;
      forall k | 0 <= k < |st2| && st2[k].writeR ensures k in log2 {
        if k == i {
          assert log2[|log|] == i;
        } else {
          assert k in log;
        }
      }
    } else {
      hide PackOverlap, StatesOk;
    }
  }

  /** A pack that is not through yet blocks all overlapping packs behind it. */
  lemma LaterNotWritten(fast: bool, packs: seq<WPack>, st: seq<Bits>, first: nat, nV: nat, i: nat, k: nat)
    requires i < |packs| == |st| && k < |st| && StatesOk(fast, packs, st, first, nV)
    requires !st[i].writeR && st[k].writeR && PackOverlap(packs[k], packs[i])
    ensures k < i
  {
    OverlapSymmetric(packs[k], packs[i]);
    hide PackOverlap;
    assert BitsOk(fast, st[i]) && BitsOk(fast, st[k]);
  }

  // -------------------------------------------------------------- going on

  function Done(b: Bits): set<Op> {
    (if b.submitL then {SUBMIT_LPACK} else {}) + (if b.completeL then {COMPLETE_LPACK} else {})
    + (if b.submitD then {SUBMIT_DPACK} else {}) + (if b.completeD then {COMPLETE_DPACK} else {})
    + (if b.writeV then {WRITE_VSTORAGE} else {}) + (if b.writeR then {WRITE_RSTORAGE} else {})
    + (if b.endReq then {END_REQ} else {})
  }

  /** The operation of the same pack that comes right before; none before the log is
      submitted. The fast algorithm ends a request and submits its data once virtual
      storage has it, the easy one ends it with the data I/O. */
  function Before(fast: bool, op: Op): set<Op> {
    match op
    case SUBMIT_LPACK => {}
    case COMPLETE_LPACK => {SUBMIT_LPACK}
    case WRITE_VSTORAGE => {COMPLETE_LPACK}
    case SUBMIT_DPACK => if fast then {WRITE_VSTORAGE} else {COMPLETE_LPACK}
    case WRITE_RSTORAGE => {SUBMIT_DPACK}
    case COMPLETE_DPACK => {WRITE_RSTORAGE}
    case END_REQ => if fast then {WRITE_VSTORAGE} else {COMPLETE_DPACK}
  }

  /** What an earlier pack that has not ended must have done for the operation. */
  ghost function Owed(fast: bool, p: WPack, q: WPack, op: Op): set<Op> {
    match op
    case WRITE_VSTORAGE => {WRITE_VSTORAGE}
    case SUBMIT_DPACK => (if fast then {} else {COMPLETE_LPACK}) + if PackOverlap(p, q) then {COMPLETE_DPACK} else {}
    case _ => {}
  }

  /** The guards say exactly this order: an operation may be executed if and only if it
      has not been, the one before it has, and no earlier pack owes anything. */
  lemma CandidateExactly(fast: bool, packs: seq<WPack>, st: seq<Bits>, first: nat, i: nat, op: Op)
    requires |st| == |packs| && i < |packs|
    ensures Candidate(fast, packs, st, first, i, op) <==>
      && op !in Done(st[i]) && Before(fast, op) <= Done(st[i])
      && forall j | first <= j < i :: Owed(fast, packs[j], packs[i], op) <= Done(st[j])
  {
    hide PackOverlap;
  }

  /** How many of the operations are done. */
  function Bit(b: bool): nat { if b then 1 else 0 }

  function Executed(b: Bits): nat {
    Bit(b.submitL) + Bit(b.completeL) + Bit(b.submitD) + Bit(b.completeD) + Bit(b.writeV) + Bit(b.writeR) + Bit(b.endReq)
  }

  lemma EndedThrough(fast: bool, packs: seq<WPack>, st: seq<Bits>, first: nat, nV: nat, j: nat)
    requires StatesOk(fast, packs, st, first, nV) && j < |st| && IsEnd(fast, st[j])
    ensures st[j].writeV && st[j].completeD && st[j].completeL
  {
    hide PackOverlap;
    assert BitsOk(fast, st[j]);
  }

  /** The guards never block everything: the first pack that has not ended always has
      an operation it may execute, and each one executed is one it had not yet. */
  lemma NeverStuck(fast: bool, packs: seq<WPack>, st: seq<Bits>, first: nat, nV: nat, i: nat) returns (op: Op)
    requires StatesOk(fast, packs, st, first, nV) && first <= i < |packs| == |st|
    requires !IsEnd(fast, st[i]) && forall j | first <= j < i :: IsEnd(fast, st[j])
    ensures Candidate(fast, packs, st, first, i, op) && Executed(SetSt(st[i], op)) == Executed(st[i]) + 1
  {
    var b := st[i];
    assert BitsOk(fast, b);
    forall j | first <= j < i ensures st[j].writeV && st[j].completeD && st[j].completeL {
      EndedThrough(fast, packs, st, first, nV, j);
    }
    hide StatesOk, PackOverlap;
    op := if !b.submitL then SUBMIT_LPACK
          else if !b.completeL then COMPLETE_LPACK
          else if !b.writeV then WRITE_VSTORAGE
          else if !b.submitD then SUBMIT_DPACK
          else if !b.writeR then WRITE_RSTORAGE
          else if !b.completeD then COMPLETE_DPACK
          else END_REQ;
  }

  // ------------------------------------------------------------ the recovery

  /** Packs that recovery writes again: not yet on both storages. */
  function Redo(st: seq<Bits>, first: nat): (sel: seq<bool>)
    ensures |sel| == |st|
    ensures forall i | 0 <= i < |st| :: sel[i] == (first <= i && !(st[i].writeV && st[i].writeR))
  {
    seq(|st|, i requires 0 <= i < |st| => first <= i && !(st[i].writeV && st[i].writeR))
  }

  /** Recovery stops at pack `k`: all logs before it are complete, its own is not. */
  ghost predicate StopsAt(st: seq<Bits>, first: nat, k: nat) {
    first <= k <= |st| && (forall i | first <= i < k :: st[i].completeL) && (k < |st| ==> !st[k].completeL)
  }

  lemma Facts(fast: bool, packs: seq<WPack>, st: seq<Bits>, first: nat, nV: nat, i: nat)
    requires StatesOk(fast, packs, st, first, nV) && i < |st|
    ensures (st[i].writeV <==> i < nV) && (st[i].writeV ==> st[i].completeL)
    ensures (st[i].writeR ==> st[i].submitD && st[i].completeL) && (st[i].completeD ==> st[i].writeR)
    ensures forall j | 0 <= j < i && st[i].submitD :: st[j].completeL && (PackOverlap(packs[j], packs[i]) ==> st[j].completeD)
  {
    hide PackOverlap;
    assert BitsOk(fast, st[i]);
  }

  /** A pack that is not written again is on both storages. */
  lemma NotRedone(fast: bool, packs: seq<WPack>, st: seq<Bits>, first: nat, nV: nat, j: nat)
    requires j < |st| && StatesOk(fast, packs, st, first, nV) && !Redo(st, first)[j]
    ensures st[j].writeV && st[j].writeR && j < nV
  {
    hide PackOverlap;
    if j < first {
      assert IsEnd(fast, st[j]) && BitsOk(fast, st[j]);
    }
  }

  /** The packs that are written again are closed under overlap: behind one of them
      no overlapping pack is left alone. */
  lemma RedoClosed(fast: bool, packs: seq<WPack>, st: seq<Bits>, first: nat, nV: nat, i: nat, j: nat)
    requires StatesOk(fast, packs, st, first, nV) && i < j < |st| && Redo(st, first)[i] && PackOverlap(packs[i], packs[j])
    ensures Redo(st, first)[j]
  {
    Facts(fast, packs, st, first, nV, i);
    Facts(fast, packs, st, first, nV, j);
    hide PackOverlap, StatesOk;
    if !Redo(st, first)[j] {
      NotRedone(fast, packs, st, first, nV, j);
    }
  }

  /** So the last pack that covers a sector is written again if any is. */
  lemma SameLast(fast: bool, packs: seq<WPack>, st: seq<Bits>, first: nat, nV: nat, k: nat, x: nat)
    requires StatesOk(fast, packs, st, first, nV) && k <= |packs| == |st|
    requires LastPack(packs, Redo(st, first), x, k) >= 0
    ensures LastPack(packs, Every(|packs|), x, k) == LastPack(packs, Redo(st, first), x, k)
  {
    var i: nat, j := LastPack(packs, Redo(st, first), x, k), LastPack(packs, Every(|packs|), x, k);
    var m: nat := if i < j then j else i;
    hide StatesOk;
    if i < m {
      CoveredOverlap(packs[i], packs[m], x);
      RedoClosed(fast, packs, st, first, nV, i, m);
    }
  }

  lemma VirtualInside(fast: bool, packs: seq<WPack>, st: seq<Bits>, first: nat, nV: nat, k: nat)
    requires StatesOk(fast, packs, st, first, nV) && StopsAt(st, first, k)
    ensures nV <= k
  {
    hide PackOverlap;
    if k < |st| {
      Facts(fast, packs, st, first, nV, k);
    }
  }

  /** Virtual storage, sector by sector. */
  lemma VirtualRecovered(fast: bool, packs: seq<WPack>, st: seq<Bits>, first: nat, nV: nat, k: nat, x: nat, was: Sector)
    requires StatesOk(fast, packs, st, first, nV) && StopsAt(st, first, k)
    ensures Overlaid(packs, Redo(st, first), x, k, Overlaid(packs, Every(|packs|), x, nV, was))
         == Overlaid(packs, Every(|packs|), x, k, was)
  {
    VirtualInside(fast, packs, st, first, nV, k);
    var i, j := LastPack(packs, Redo(st, first), x, k), LastPack(packs, Every(|packs|), x, k);
    if i >= 0 {
      SameLast(fast, packs, st, first, nV, k, x);
    } else if j >= 0 {
      NotRedone(fast, packs, st, first, nV, j);
    }
  }

  /** The last write of a sector in the order of real storage. */
  lemma {:induction false} ByLogAt(d: Image, packs: seq<WPack>, log: seq<nat>, x: nat) returns (a: int)
    requires x < |d| && (forall i | 0 <= i < |packs| :: AllFit(packs[i], |d|)) && forall b | 0 <= b < |log| :: log[b] < |packs|
    ensures -1 <= a < |log|
    ensures a < 0 ==> ByLog(d, packs, log)[x] == d[x]
    ensures a >= 0 ==> LastIn(packs[log[a]], x) >= 0 && ByLog(d, packs, log)[x] == Over(packs[log[a]], x, d[x])
    ensures forall b | a < b < |log| :: LastIn(packs[log[b]], x) < 0
    decreases |log|
  {
    if log == [] {
      a := -1;
    } else {
      var n := |log| - 1;
      assert ByLog(d, packs, log) == Apply(ByLog(d, packs, log[..n]), packs[log[n]]);
      ApplyPackAt(ByLog(d, packs, log[..n]), packs[log[n]], x);
      OverAny(packs[log[n]], x, ByLog(d, packs, log[..n])[x], d[x]);
      hide AllFit, Apply, ByLog, Over;
      if LastIn(packs[log[n]], x) >= 0 {
        a := n;
      } else {
        a := ByLogAt(d, packs, log[..n], x);
      }
    }
  }

  /** A pack that is on real storage lies before the point where recovery stops. */
  lemma RealInside(fast: bool, packs: seq<WPack>, st: seq<Bits>, first: nat, nV: nat, k: nat, m: nat)
    requires StatesOk(fast, packs, st, first, nV) && StopsAt(st, first, k) && m < |st| && st[m].writeR
    ensures m < k
  {
    Facts(fast, packs, st, first, nV, m);
    hide PackOverlap, StatesOk;
  }

  lemma RealSameLast(fast: bool, packs: seq<WPack>, st: seq<Bits>, first: nat, nV: nat, k: nat, log: seq<nat>, x: nat, a: nat)
    requires StatesOk(fast, packs, st, first, nV) && StopsAt(st, first, k) && LogOk(packs, st, log)
    requires LastPack(packs, Redo(st, first), x, k) < 0 && a < |log| && log[a] < |packs| && LastIn(packs[log[a]], x) >= 0
    requires forall b | a < b < |log| && log[b] < |packs| :: LastIn(packs[log[b]], x) < 0
    ensures LastPack(packs, Every(|packs|), x, k) == log[a]
  {
    var m, j := log[a], LastPack(packs, Every(|packs|), x, k);
    RealInside(fast, packs, st, first, nV, k, m);
    assert Every(|packs|)[m] && m <= j;
    NotRedone(fast, packs, st, first, nV, j);
    assert j in log;
    var b :| 0 <= b < |log| && log[b] == j;
    CoveredOverlap(packs[j], packs[m], x);
    hide StatesOk, PackOverlap, StopsAt;
  }

  /** Real storage, sector by sector. */
  lemma RealRecovered(fast: bool, packs: seq<WPack>, st: seq<Bits>, first: nat, nV: nat, k: nat, log: seq<nat>, x: nat, d: Image)
    requires StatesOk(fast, packs, st, first, nV) && StopsAt(st, first, k) && LogOk(packs, st, log)
    requires x < |d| && forall i | 0 <= i < |packs| :: AllFit(packs[i], |d|)
    ensures Overlaid(packs, Redo(st, first), x, k, ByLog(d, packs, log)[x]) == Overlaid(packs, Every(|packs|), x, k, d[x])
  {
    var i, j := LastPack(packs, Redo(st, first), x, k), LastPack(packs, Every(|packs|), x, k);
    if i >= 0 {
      SameLast(fast, packs, st, first, nV, k, x);
    } else {
      var a := ByLogAt(d, packs, log, x);
      if a >= 0 {
        RealSameLast(fast, packs, st, first, nV, k, log, x, a);
      } else if j >= 0 {
        NotRedone(fast, packs, st, first, nV, j);
        IsInLog(packs, st, log, j);
      }
    }
  }

  lemma IsInLog(packs: seq<WPack>, st: seq<Bits>, log: seq<nat>, j: nat)
    requires |st| == |packs| && LogOk(packs, st, log) && j < |st| && st[j].writeR
    ensures exists b :: 0 <= b < |log| && log[b] == j
  {
    hide PackOverlap;
  }

  /** PackState.executeIO: the requests one after the other. */
  method ExecuteIo(d: Image, p: WPack) returns (r: Image)
    ensures r == Apply(d, p)
  {
    r := d;
    for j := 0 to |p|
      invariant r == Apply(d, p[..j])
    {
      assert p[..j + 1][..j] == p[..j];
      r := Put(r, p[j]);
    }
    assert p[..|p|] == p;
  }

  class PackStateManager {
    const packs: seq<WPack>
    const fast: bool
    const initial: Image
    var v: Image
    var r: Image
    var st: seq<Bits>
    var first: nat
    ghost var nV: nat
    ghost var log: seq<nat>

    ghost predicate Valid()
      reads this
    {
      && (forall i | 0 <= i < |packs| :: AllFit(packs[i], |initial|))
      && StatesOk(fast, packs, st, first, nV) && LogOk(packs, st, log)
      && v == InOrder(initial, packs, nV) && r == ByLog(initial, packs, log)
    }

    constructor (d: Image, ps: seq<WPack>, isFast: bool)
      requires forall i | 0 <= i < |ps| :: AllFit(ps[i], |d|)
      ensures Valid() && packs == ps && fast == isFast && initial == d && v == d && r == d
    {
      packs, fast, initial, v, r := ps, isFast, d, d, d;
      st, first, nV, log := seq(|ps|, i => NONE), 0, 0, [];
    }

    /** execute: one candidate operation of pack `i`, and the advance of the first
        pack that has not ended. */
    method Execute(i: nat, op: Op) returns (changed: bool)
      requires Valid() && i < |packs| && Candidate(fast, packs, st, first, i, op)
      modifies this
      ensures Valid() && st == old(st)[i := SetSt(old(st[i]), op)]
      ensures changed == (first != old(first)) && Advanced(fast, st, old(first), i, first)
      ensures v == (if op.WRITE_VSTORAGE? then Apply(old(v), packs[i]) else old(v))
      ensures r == (if op.WRITE_RSTORAGE? then Apply(old(r), packs[i]) else old(r))
    {
      hide StatesOk, LogOk, Candidate, PackOverlap, AllFit, Apply, SetSt, Advanced, IsEnd;
      SameLength(fast, packs, st, first, nV);
      StepStates(fast, packs, st, first, nV, i, op);
      StepLog(fast, packs, st, first, nV, log, i, op);
      if op.WRITE_VSTORAGE? {
        v := ExecuteIo(v, packs[i]);
        nV := nV + 1;
      } else if op.WRITE_RSTORAGE? {
        r := ExecuteIo(r, packs[i]);
        assert (log + [i])[..|log|] == log;
        log := log + [i];
      }
      st := st[i := SetSt(st[i], op)];
      var was := first;
      first := Advance(fast, st, first, i);
      AdvancedEnded(fast, st, was, i, first);
      StatesAdvance(fast, packs, st, was, nV, first);
      changed := first != was;
    }

    /** The body of the recovery loop for one pack. */
    method RedoPack(k: nat, ghost sel: seq<bool>, ghost v0: Image, ghost r0: Image)
      requires k < |packs| == |st| == |sel| && AllFit(packs[k], |initial|) && |v0| == |r0| == |initial|
      requires IsOverlaid(packs, sel, k, v0, v) && IsOverlaid(packs, sel, k, r0, r)
      requires sel[k] == !(st[k].writeV && st[k].writeR)
      modifies this`v, this`r
      ensures IsOverlaid(packs, sel, k + 1, v0, v) && IsOverlaid(packs, sel, k + 1, r0, r)
    {
      SameSize(packs, sel, k, v0, v);
      SameSize(packs, sel, k, r0, r);
      hide IsOverlaid, AllFit, Apply;
      ghost var v1, r1 := v, r;
      if !st[k].writeV || !st[k].writeR {
        v := ExecuteIo(v, packs[k]);
        r := ExecuteIo(r, packs[k]);
      }
      OverlaidNext(packs, sel, k, v0, v1, v);
      OverlaidNext(packs, sel, k, r0, r1, r);
    }

    /** doCrashRecovery: writes every pack again whose log is complete and that is
        not on both storages yet, up to the first pack whose log is not. Both
        storages then hold exactly the packs before that one, applied in order. */
    method DoCrashRecovery() returns (k: nat)
      requires Valid()
      modifies this
      ensures StopsAt(old(st), old(first), k) && first == k <= |packs|
      ensures v == r == InOrder(initial, packs, k)
      ensures |st| == |packs| && forall i | 0 <= i < |st| :: st[i] == if old(first) <= i < k then ALL else old(st[i])
    {
      ghost var st0, first0, v0, r0, nV0, log0 := st, first, v, r, nV, log;
      hide StatesOk, LogOk, PackOverlap, Apply, AllFit, IsOverlaid, InOrder, ByLog;
      SameLength(fast, packs, st, first, nV);
      k := first;
      NothingOverlaid(packs, Redo(st0, first0), first, v, r);
      while k < |packs| && st[k].completeL
        invariant first0 <= k <= |packs| == |st| && first == k
        invariant forall i | 0 <= i < |st| :: st[i] == if first0 <= i < k then ALL else st0[i]
        invariant forall i | first0 <= i < k :: st0[i].completeL
        invariant IsOverlaid(packs, Redo(st0, first0), k, v0, v) && IsOverlaid(packs, Redo(st0, first0), k, r0, r)
      {
        RedoPack(k, Redo(st0, first0), v0, r0);
        st := st[k := ALL];
        first := k + 1;
        k := k + 1;
      }
      BothRecovered(fast, packs, st0, first0, nV0, log0, k, initial, v, r);
    }
  }

  /** `d` is what the marked packs below `n` make of `was`. */
  ghost predicate IsOverlaid(packs: seq<WPack>, sel: seq<bool>, n: nat, was: Image, d: Image) {
    |sel| == |packs| && n <= |packs| && |d| == |was| && forall x | 0 <= x < |was| :: d[x] == Overlaid(packs, sel, x, n, was[x])
  }

  lemma {:induction false} NoneSelected(packs: seq<WPack>, sel: seq<bool>, n: nat, x: nat)
    requires n <= |packs| == |sel| && forall i | 0 <= i < n :: !sel[i]
    ensures LastPack(packs, sel, x, n) == -1
    decreases n
  {
  }

  lemma NothingOverlaid(packs: seq<WPack>, sel: seq<bool>, n: nat, v: Image, r: Image)
    requires n <= |packs| == |sel| && forall i | 0 <= i < n :: !sel[i]
    ensures IsOverlaid(packs, sel, n, v, v) && IsOverlaid(packs, sel, n, r, r)
  {
    forall x: nat ensures LastPack(packs, sel, x, n) == -1 {
      NoneSelected(packs, sel, n, x);
    }
  }

  lemma OverlaidNext(packs: seq<WPack>, sel: seq<bool>, n: nat, was: Image, d: Image, d2: Image)
    requires IsOverlaid(packs, sel, n, was, d) && n < |packs| && AllFit(packs[n], |d|)
    requires d2 == if sel[n] then Apply(d, packs[n]) else d
    ensures IsOverlaid(packs, sel, n + 1, was, d2)
  {
    hide Apply, AllFit, Over;
    forall x | 0 <= x < |was| ensures d2[x] == Overlaid(packs, sel, x, n + 1, was[x]) {
      OverlaidStep(packs, sel, x, n, was[x]);
      ApplyPackAt(d, packs[n], x);
    }
  }

  lemma SameSize(packs: seq<WPack>, sel: seq<bool>, n: nat, was: Image, d: Image)
    requires IsOverlaid(packs, sel, n, was, d)
    ensures |d| == |was|
  {
  }

  lemma Sizes(d: Image, packs: seq<WPack>, n: nat, log: seq<nat>)
    requires n <= |packs|
    ensures |InOrder(d, packs, n)| == |d| == |ByLog(d, packs, log)|
  {
  }

  lemma BothRecovered(fast: bool, packs: seq<WPack>, st: seq<Bits>, first: nat, nV: nat, log: seq<nat>, k: nat,
                      d: Image, v: Image, r: Image)
    requires StatesOk(fast, packs, st, first, nV) && StopsAt(st, first, k)
    requires LogOk(packs, st, log) && forall i | 0 <= i < |packs| :: AllFit(packs[i], |d|)
    requires IsOverlaid(packs, Redo(st, first), k, InOrder(d, packs, nV), v)
    requires IsOverlaid(packs, Redo(st, first), k, ByLog(d, packs, log), r)
    ensures v == r == InOrder(d, packs, k)
  {
    SameLength(fast, packs, st, first, nV);
    Sizes(d, packs, nV, log);
    Sizes(d, packs, k, log);
    SameSize(packs, Redo(st, first), k, InOrder(d, packs, nV), v);
    SameSize(packs, Redo(st, first), k, ByLog(d, packs, log), r);
    hide StatesOk, StopsAt, LogOk, Overlaid, AllFit, InOrder, ByLog, Redo, IsOverlaid;
    forall x: nat | x < |d| ensures v[x] == InOrder(d, packs, k)[x] {
      VirtualSector(fast, packs, st, first, nV, k, d, v, x);
    }
    forall x: nat | x < |d| ensures r[x] == InOrder(d, packs, k)[x] {
      RealSector(fast, packs, st, first, nV, log, k, d, r, x);
    }
  }

  lemma {:induction false} VirtualSector(fast: bool, packs: seq<WPack>, st: seq<Bits>, first: nat, nV: nat, k: nat,
                                         d: Image, v: Image, x: nat)
    requires StatesOk(fast, packs, st, first, nV) && StopsAt(st, first, k)
    requires x < |d| && forall i | 0 <= i < |packs| :: AllFit(packs[i], |d|)
    requires IsOverlaid(packs, Redo(st, first), k, InOrder(d, packs, nV), v)
    ensures v[x] == InOrder(d, packs, k)[x]
  {
    SameLength(fast, packs, st, first, nV);
    hide StatesOk, StopsAt, Overlaid, AllFit, InOrder, Redo;
    InOrderAt(d, packs, nV, x);
    InOrderAt(d, packs, k, x);
    VirtualRecovered(fast, packs, st, first, nV, k, x, d[x]);
  }

  lemma {:induction false} RealSector(fast: bool, packs: seq<WPack>, st: seq<Bits>, first: nat, nV: nat, log: seq<nat>, k: nat,
                                      d: Image, r: Image, x: nat)
    requires StatesOk(fast, packs, st, first, nV) && StopsAt(st, first, k) && LogOk(packs, st, log)
    requires x < |d| && forall i | 0 <= i < |packs| :: AllFit(packs[i], |d|)
    requires IsOverlaid(packs, Redo(st, first), k, ByLog(d, packs, log), r)
    ensures r[x] == InOrder(d, packs, k)[x]
  {
    hide StatesOk, StopsAt, LogOk, Overlaid, AllFit, InOrder, ByLog, Redo;
    InOrderAt(d, packs, k, x);
    RealRecovered(fast, packs, st, first, nV, k, log, x, d);
  }

  lemma SameLength(fast: bool, packs: seq<WPack>, st: seq<Bits>, first: nat, nV: nat)
    requires StatesOk(fast, packs, st, first, nV)
    ensures |st| == |packs| && first <= |st| && nV <= |packs|
  {
  }

  lemma StatesAdvance(fast: bool, packs: seq<WPack>, st: seq<Bits>, first: nat, nV: nat, first2: nat)
    requires StatesOk(fast, packs, st, first, nV) && first <= first2 <= |st|
    requires forall j | first <= j < first2 :: IsEnd(fast, st[j])
    ensures StatesOk(fast, packs, st, first2, nV)
  {
    hide PackOverlap, IsEnd;
  }

  /** All packs of [lo, hi) have ended. */
  ghost predicate AllEnded(fast: bool, st: seq<Bits>, lo: nat, hi: nat) {
    hi <= |st| && forall j | lo <= j < hi :: IsEnd(fast, st[j])
  }

  /** The first pack that has not ended was `was` and is `next` now: it moves only over
      packs that have ended, only if pack `i` and all before it have, and then behind
      pack `i` and as far as it can. */
  ghost predicate Advanced(fast: bool, st: seq<Bits>, was: nat, i: nat, next: nat) {
    && was <= next && AllEnded(fast, st, was, next)
    && if was <= i && AllEnded(fast, st, was, i + 1) then i < next && (next < |st| ==> !IsEnd(fast, st[next])) else next == was
  }

  lemma AdvancedEnded(fast: bool, st: seq<Bits>, was: nat, i: nat, next: nat)
    requires Advanced(fast, st, was, i, next)
    ensures was <= next <= |st| && forall j | was <= j < next :: IsEnd(fast, st[j])
  {
  }

  /** The end of execute: if pack `i` has ended and so have all between, the first
      pack that has not ended moves behind it, up to one that has not. */
  method Advance(fast: bool, st: seq<Bits>, first: nat, i: nat) returns (next: nat)
    requires i < |st| && first <= |st|
    ensures Advanced(fast, st, first, i, next)
  {
    next := first;
    if !IsEnd(fast, st[i]) || i < first {
      return;
    }
    while next < |st| && IsEnd(fast, st[next])
      invariant first <= next && AllEnded(fast, st, first, next)
    {
      next := next + 1;
    }
    if next <= i {
      next := first;
    }
  }
}
