/** The pending data in memory: module/pending_io.c, and the read bio that
    module/bio_wrapper.c splits and fills in place. */
module PendingIo {
  import opened Words
  import opened Disk
  import opened Overlapped
  import opened CellMap
  import opened OverlappedIo
  import opened Pending

  // ----------------------------------------------------------- the read bio

  /** Piece `n` of a partition lies inside it, right before piece n + 1. */
  lemma {:induction false} PieceAt(ps: seq<Piece>, a: nat, b: nat, n: nat)
    requires Partition(ps, a, b) && n < |ps|
    ensures a <= ps[n].pos < PieceEnd(ps[n]) <= b
    ensures n == 0 ==> ps[n].pos == a
    ensures if n + 1 < |ps| then ps[n + 1].pos == PieceEnd(ps[n]) else PieceEnd(ps[n]) == b
    decreases |ps|
  {
    var last := |ps| - 1;
    PartitionUp(ps[..last], a, ps[last].pos);
    if n < last {
      PieceAt(ps[..last], a, ps[last].pos, n);
    } else if last > 0 {
      PieceAt(ps[..last], a, ps[last].pos, last - 1);
    } else {
      assert ps[..last] == [];
    }
  }

  /** Where the pieces from `n` on begin. */
  function From(ps: seq<Piece>, b: nat, n: nat): nat {
    if n < |ps| then ps[n].pos else b
  }

  lemma CutStep(ps: seq<Piece>, w: Write, inherit: bool, n: nat)
    requires n < |ps|
    ensures Cut(ps[..n + 1], w, inherit) == Cut(ps[..n], w, inherit) + CutOne(ps[n], w, inherit)
  {
    assert ps[..n + 1][..n] == ps[..n];
  }

  lemma Begins(ps: seq<Piece>, a: nat, b: nat)
    requires Partition(ps, a, b)
    ensures From(ps, b, 0) == a && ps[..0] == [] && ps[0..] == ps
  {
    if ps != [] {
      PieceAt(ps, a, b, 0);
    }
  }

  /** The buffer holds the write's data wherever it covers a sector before `upto`. */
  ghost predicate CopiedTo(was: seq<Sector>, now: seq<Sector>, base: nat, w: Write, upto: nat) {
    |now| == |was| && forall k | 0 <= k < |was| ::
      now[k] == if base + k < upto && Covers(w, base + k) then w.data[base + k - w.pos] else was[k]
  }

  lemma NothingCopied(was: seq<Sector>, base: nat, w: Write)
    ensures CopiedTo(was, was, base, w, base)
  {
  }

  lemma CopiedStep(was: seq<Sector>, before: seq<Sector>, now: seq<Sector>, base: nat, w: Write, p: Piece)
    requires CopiedTo(was, before, base, w, p.pos) && |now| == |before|
    requires forall k | 0 <= k < |now| ::
      now[k] == if p.pos <= base + k < PieceEnd(p) && Covers(w, base + k) then w.data[base + k - w.pos] else before[k]
    ensures CopiedTo(was, now, base, w, PieceEnd(p))
  {
  }

  lemma AllCopied(was: seq<Sector>, now: seq<Sector>, base: nat, w: Write)
    requires CopiedTo(was, now, base, w, base + |was|)
    ensures now == CopyIn(was, base, w)
  {
  }

  lemma NothingCut(w: Write, inherit: bool)
    ensures Cut([], w, inherit) == []
  {
  }

  lemma FromStep(ps: seq<Piece>, a: nat, b: nat, n: nat)
    requires Partition(ps, a, b) && n < |ps|
    ensures From(ps, b, n) == ps[n].pos && From(ps, b, n + 1) == PieceEnd(ps[n])
  {
    PieceAt(ps, a, b, n);
  }

  lemma FromEnd(ps: seq<Piece>, b: nat, n: nat)
    requires n == |ps|
    ensures From(ps, b, n) == b && ps[..n] == ps && ps[n..] == []
  {
  }

  lemma ListStep(list: seq<Piece>, done: seq<Piece>, ps: seq<Piece>, n: nat)
    requires n < |ps| && list == done + ps[n..]
    ensures list[|done|] == ps[n] && list[..|done|] == done && list[|done| + 1..] == ps[n + 1..]
  {
  }

  /** bio_copy_data_partial: the sectors of [lo, hi). */
  method CopyPartial(buf: array<Sector>, base: nat, w: Write, lo: nat, hi: nat)
    requires base <= lo <= hi <= base + buf.Length && w.pos <= lo && hi <= w.pos + |w.data|
    modifies buf
    ensures forall k | 0 <= k < buf.Length ::
              buf[k] == if lo <= base + k < hi then w.data[base + k - w.pos] else old(buf[k])
  {
    for x := lo to hi
      invariant forall k | 0 <= k < buf.Length ::
          buf[k] == if lo <= base + k < x then w.data[base + k - w.pos] else old(buf[k])
    {
      buf[x - base] := w.data[x - w.pos];
    }
  }

  /** struct bio_wrapper of a read: its list of cloned bios and the buffer. */
  class ReadBio {
    const pos: nat
    const buf: array<Sector>
    var pieces: seq<Piece>

    ghost predicate Valid()
      reads this
    {
      Partition(pieces, pos, pos + buf.Length)
    }

    constructor (p: nat, b: array<Sector>, ps: seq<Piece>)
      requires Partition(ps, p, p + b.Length)
      ensures Valid() && pos == p && buf == b && pieces == ps
    {
      pos, buf, pieces := p, b, ps;
    }

    /** The loop body of bio_wrapper_copy_overlapped: copies what the write covers of
        piece `i` and splits the piece around it. */
    method CopyPiece(i: nat, w: Write, inherit: bool) returns (next: nat)
      requires i < |pieces| && pos <= pieces[i].pos < PieceEnd(pieces[i]) <= pos + buf.Length && |w.data| > 0
      modifies this, buf
      ensures var p := old(pieces[i]);
        && pieces == old(pieces)[..i] + CutOne(p, w, inherit) + old(pieces)[i + 1..]
        && next == i + |CutOne(p, w, inherit)|
        && forall k | 0 <= k < buf.Length ::
             buf[k] == if p.pos <= pos + k < PieceEnd(p) && Covers(w, pos + k) then w.data[pos + k - w.pos] else old(buf[k])
    {
      var p := pieces[i];
      if Meets(p, w) {
        CopyPartial(buf, pos, w, Pending.Max(p.pos, w.pos), Min(PieceEnd(p), w.pos + |w.data|));
      }
      var cut := CutOne(p, w, inherit);
      hide SplitPiece;
      pieces, next := pieces[..i] + cut + pieces[i + 1..], i + |cut|;
    }

    /** bio_wrapper_copy_overlapped: walks the list of pieces. */
    method CopyOverlapped(w: Write, inherit: bool)
      requires Valid() && |w.data| > 0
      modifies this, buf
      ensures Valid() && pieces == Cut(old(pieces), w, inherit)
      ensures buf[..] == CopyIn(old(buf[..]), pos, w)
    {
      NothingCut(w, inherit);
      hide CutOne, SplitPiece, Meets, Partition, From, Cut, CopyIn, CopiedTo;
      ghost var ps, n, end, was := pieces, 0, pos + buf.Length, buf[..];
      var i := 0;
      Begins(ps, pos, end);
      NothingCopied(was, pos, w);
      while i < |pieces|
        invariant n <= |ps| && i == |Cut(ps[..n], w, inherit)|
        invariant pieces == Cut(ps[..n], w, inherit) + ps[n..]
        invariant CopiedTo(was, buf[..], pos, w, From(ps, end, n))
        decreases |ps| - n
      {
        FromStep(ps, pos, end, n);
        PieceAt(ps, pos, end, n);
        CutStep(ps, w, inherit, n);
        ListStep(pieces, Cut(ps[..n], w, inherit), ps, n);
        ghost var before := buf[..];
        i := CopyPiece(i, w, inherit);
        CopiedStep(was, before, buf[..], pos, w, ps[n]);
        n := n + 1;
      }
      FromEnd(ps, end, n);
      assert pieces == Cut(ps, w, inherit);
      CutPartition(ps, w, inherit, pos, end);
      AllCopied(was, buf[..], pos, w);
    }

    /** bio_wrapper_endio_copied: completes and removes the marked pieces, each once
        and in order; the others stay. */
    method EndioCopied() returns (done: seq<Piece>)
      modifies this
      ensures done == Ended(old(pieces)) && pieces == Unmarked(old(pieces))
      ensures multiset(done) + multiset(pieces) == multiset(old(pieces))
      ensures AllMarked(done, true) && AllMarked(pieces, false)
    {
      EndedOrLeft(pieces);
      pieces, done := TakeMarked(pieces);
    }
  }

  /** The loop of bio_wrapper_endio_copied. */
  method TakeMarked(ps: seq<Piece>) returns (left: seq<Piece>, done: seq<Piece>)
    ensures left == Unmarked(ps) && done == Ended(ps)
  {
    ghost var n := 0;
    var i := 0;
    left, done := ps, [];
    assert ps[..0] == [] && ps[0..] == ps && Unmarked([]) == Ended([]) == [];
    hide Unmarked, Ended;
    while i < |left|
      invariant n <= |ps| && i == |Unmarked(ps[..n])| && left == Unmarked(ps[..n]) + ps[n..]
      invariant done == Ended(ps[..n])
      decreases |ps| - n
    {
      UnmarkedStep(ps, n);
      ListStep(left, Unmarked(ps[..n]), ps, n);
      if left[i].copied {
        done := done + [left[i]];
        left := left[..i] + left[i + 1..];
      } else {
        OneMore(left, Unmarked(ps[..n]), ps, n);
        i := i + 1;
      }
      n := n + 1;
    }
    assert ps[..n] == ps;
  }

  lemma UnmarkedStep(ps: seq<Piece>, n: nat)
    requires n < |ps|
    ensures Unmarked(ps[..n + 1]) == Unmarked(ps[..n]) + if ps[n].copied then [] else [ps[n]]
    ensures Ended(ps[..n + 1]) == Ended(ps[..n]) + if ps[n].copied then [ps[n]] else []
  {
    assert ps[..n + 1][..n] == ps[..n];
  }

  lemma OneMore(list: seq<Piece>, done: seq<Piece>, ps: seq<Piece>, n: nat)
    requires n < |ps| && list == done + ps[n..]
    ensures list == (done + [ps[n]]) + ps[n + 1..]
  {
  }

  function Unmarked(ps: seq<Piece>): seq<Piece>
    decreases |ps|
  {
    if ps == [] then []
    else Unmarked(ps[..|ps| - 1]) + if ps[|ps| - 1].copied then [] else [ps[|ps| - 1]]
  }

  /** The marked pieces, in order. */
  function Ended(ps: seq<Piece>): seq<Piece>
    decreases |ps|
  {
    if ps == [] then []
    else Ended(ps[..|ps| - 1]) + if ps[|ps| - 1].copied then [ps[|ps| - 1]] else []
  }

  lemma LastPiece(ps: seq<Piece>)
    requires ps != []
    ensures var init, last := ps[..|ps| - 1], ps[|ps| - 1];
      && ps == init + [last]
      && Ended(ps) == (if last.copied then Ended(init) + [last] else Ended(init))
      && Unmarked(ps) == (if last.copied then Unmarked(init) else Unmarked(init) + [last])
  {
  }

  ghost predicate AllMarked(ps: seq<Piece>, copied: bool) {
    forall j | 0 <= j < |ps| :: ps[j].copied == copied
  }

  lemma MoreCopied(ps: seq<Piece>, p: Piece)
    ensures AllMarked(ps, p.copied) ==> AllMarked(ps + [p], p.copied)
  {
  }

  lemma SplitMore(ps: seq<Piece>, done: seq<Piece>, left: seq<Piece>, p: Piece)
    requires multiset(done) + multiset(left) == multiset(ps)
    ensures multiset(done + [p]) + multiset(left) == multiset(ps + [p])
    ensures multiset(done) + multiset(left + [p]) == multiset(ps + [p])
  {
  }

  /** Every piece ends or stays, according to its mark. */
  lemma {:induction false} EndedOrLeft(ps: seq<Piece>)
    ensures multiset(Ended(ps)) + multiset(Unmarked(ps)) == multiset(ps)
    ensures AllMarked(Ended(ps), true) && AllMarked(Unmarked(ps), false)
    decreases |ps|
  {
    if ps != [] {
      var init, last := ps[..|ps| - 1], ps[|ps| - 1];
      LastPiece(ps);
      EndedOrLeft(init);
      hide Ended, Unmarked, AllMarked;
      SplitMore(init, Ended(init), Unmarked(init), last);
      MoreCopied(Ended(init), last);
      MoreCopied(Unmarked(init), last);
    }
  }

  // ------------------------------------------------ each sector has one piece

  predicate OnPiece(p: Piece, x: nat) {
    p.pos <= x < PieceEnd(p)
  }

  /** Exactly one of the pieces has the sector, or none. */
  ghost predicate OnOne(ps: seq<Piece>, x: nat) {
    exists i :: 0 <= i < |ps| && OnPiece(ps[i], x) && forall j | 0 <= j < |ps| && OnPiece(ps[j], x) :: j == i
  }

  ghost predicate OnNone(ps: seq<Piece>, x: nat) {
    forall i | 0 <= i < |ps| :: !OnPiece(ps[i], x)
  }

  /** Exactly one completed piece has the sector, or exactly one that is left. */
  ghost predicate EndedOnce(done: seq<Piece>, left: seq<Piece>, x: nat) {
    (OnOne(done, x) && OnNone(left, x)) || (OnNone(done, x) && OnOne(left, x))
  }

  lemma NoneMore(ps: seq<Piece>, p: Piece, x: nat)
    ensures OnNone(ps + [p], x) <==> OnNone(ps, x) && !OnPiece(p, x)
  {
    var all := ps + [p];
    assert all[|ps|] == p && forall i | 0 <= i < |ps| :: all[i] == ps[i];
  }

  lemma OneStays(ps: seq<Piece>, p: Piece, x: nat)
    requires !OnPiece(p, x)
    ensures OnOne(ps + [p], x) <==> OnOne(ps, x)
  {
    hide OnPiece;
    var all := ps + [p];
    if OnOne(ps, x) {
      var i :| 0 <= i < |ps| && OnPiece(ps[i], x) && forall j | 0 <= j < |ps| && OnPiece(ps[j], x) :: j == i;
      assert OnPiece(all[i], x);
    }
    if OnOne(all, x) {
      var i :| 0 <= i < |all| && OnPiece(all[i], x) && forall j | 0 <= j < |all| && OnPiece(all[j], x) :: j == i;
      assert forall j | 0 <= j < |ps| :: all[j] == ps[j];
    }
  }

  lemma OneComes(ps: seq<Piece>, p: Piece, x: nat)
    requires OnPiece(p, x) && OnNone(ps, x)
    ensures OnOne(ps + [p], x)
  {
    hide OnPiece;
    var all, n := ps + [p], |ps|;
    assert all[n] == p && forall i | 0 <= i < |ps| :: all[i] == ps[i];
    assert OnPiece(all[n], x);
    assert forall j | 0 <= j < |all| && OnPiece(all[j], x) :: j == n;
  }

  lemma OnMore(ps: seq<Piece>, p: Piece, x: nat)
    ensures OnNone(ps + [p], x) <==> OnNone(ps, x) && !OnPiece(p, x)
    ensures !OnPiece(p, x) ==> (OnOne(ps + [p], x) <==> OnOne(ps, x))
    ensures OnPiece(p, x) && OnNone(ps, x) ==> OnOne(ps + [p], x)
  {
    hide OnPiece, OnNone, OnOne;
    NoneMore(ps, p, x);
    if !OnPiece(p, x) {
      OneStays(ps, p, x);
    } else if OnNone(ps, x) {
      OneComes(ps, p, x);
    }
  }

  /** Behind the last piece there is nothing. */
  lemma {:induction false} NoneBehind(ps: seq<Piece>, a: nat, b: nat, x: nat)
    requires Partition(ps, a, b) && b <= x
    ensures OnNone(Ended(ps), x) && OnNone(Unmarked(ps), x)
    decreases |ps|
  {
    if ps != [] {
      var last := ps[|ps| - 1];
      NoneBehind(ps[..|ps| - 1], a, last.pos, x);
      OnMore(Ended(ps[..|ps| - 1]), last, x);
      OnMore(Unmarked(ps[..|ps| - 1]), last, x);
    }
  }

  /** Of a partition each sector ends with exactly one piece or is left in exactly
      one, and it ends exactly if it is marked. */
  lemma {:induction false} EachSectorOnce(ps: seq<Piece>, a: nat, b: nat, x: nat)
    requires Partition(ps, a, b) && a <= x < b
    ensures EndedOnce(Ended(ps), Unmarked(ps), x)
    ensures OnOne(Ended(ps), x) <==> Marked(ps, x)
    decreases |ps|
  {
    var init, last := ps[..|ps| - 1], ps[|ps| - 1];
    LastPiece(ps);
    OnMore(Ended(init), last, x);
    OnMore(Unmarked(init), last, x);
    hide Ended, Unmarked, OnOne, OnNone;
    if x < last.pos {
      EachSectorOnce(init, a, last.pos, x);
    } else {
      NoneBehind(init, a, last.pos, x);
      NotMarkedBehind(init, a, last.pos, x);
      OneNotNone(Ended(ps), x);
    }
  }

  lemma OneNotNone(ps: seq<Piece>, x: nat)
    ensures OnNone(ps, x) ==> !OnOne(ps, x)
  {
  }

  lemma {:induction false} NotMarkedBehind(ps: seq<Piece>, a: nat, b: nat, x: nat)
    requires Partition(ps, a, b) && b <= x
    ensures !Marked(ps, x)
    decreases |ps|
  {
    if ps != [] {
      NotMarkedBehind(ps[..|ps| - 1], a, ps[|ps| - 1].pos, x);
    }
  }

  // ------------------------------------------------------- the pending map

  /** Entries left once `b` has dropped those it overwrites entirely. */
  function Survivors(cells: seq<BioWrapper>, b: BioWrapper): seq<BioWrapper>
    decreases |cells|
  {
    if cells == [] then []
    else
      var last := cells[|cells| - 1];
      Survivors(cells[..|cells| - 1], b) + if last != b && CoveredBy(last.w, b.w) then [] else [last]
  }

  lemma {:induction false} SurvivorsInside(cells: seq<BioWrapper>, b: BioWrapper, i: nat) returns (j: nat)
    requires i < |Survivors(cells, b)|
    ensures j < |cells| && cells[j] == Survivors(cells, b)[i] && (cells[j] == b || !CoveredBy(cells[j].w, b.w))
    decreases |cells|
  {
    var n := |cells| - 1;
    if i < |Survivors(cells[..n], b)| {
      j := SurvivorsInside(cells[..n], b, i);
    } else {
      j := n;
    }
  }

  lemma {:induction false} SurvivorsSorted(cells: seq<BioWrapper>, b: BioWrapper)
    requires Sorted(cells) && Distinct(cells)
    ensures Sorted(Survivors(cells, b)) && Distinct(Survivors(cells, b))
    decreases |cells|
  {
    if cells != [] {
      var n := |cells| - 1;
      var kept := Survivors(cells[..n], b);
      SurvivorsSorted(cells[..n], b);
      forall i | 0 <= i < |kept| ensures kept[i].w.pos <= cells[n].w.pos && kept[i] != cells[n] {
        var j := SurvivorsInside(cells[..n], b, i);
      }
    }
  }

  /** Exactly the entries that are not overwritten survive. */
  lemma {:induction false} SurvivorsAre(cells: seq<BioWrapper>, b: BioWrapper, c: BioWrapper)
    ensures c in Survivors(cells, b) <==> c in cells && (c == b || !CoveredBy(c.w, b.w))
    decreases |cells|
  {
    if cells != [] {
      var n := |cells| - 1;
      SurvivorsAre(cells[..n], b, c);
      assert cells == cells[..n] + [cells[n]];
    }
  }

  lemma {:induction false} AllSurvive(cells: seq<BioWrapper>, b: BioWrapper)
    requires forall i | 0 <= i < |cells| :: !CoveredBy(cells[i].w, b.w)
    ensures Survivors(cells, b) == cells
    decreases |cells|
  {
    if cells != [] {
      AllSurvive(cells[..|cells| - 1], b);
    }
  }

  lemma {:induction false} TailSurvives(cells: seq<BioWrapper>, b: BioWrapper, n: nat)
    requires n <= |cells| && forall i | n <= i < |cells| :: !CoveredBy(cells[i].w, b.w)
    ensures Survivors(cells, b) == Survivors(cells[..n], b) + cells[n..]
    decreases |cells|
  {
    if n < |cells| {
      TailSurvives(cells[..|cells| - 1], b, n);
      assert cells[..|cells| - 1][..n] == cells[..n];
    } else {
      assert cells[..n] == cells;
    }
  }

  ghost predicate LongerThanZero(cells: seq<BioWrapper>) {
    forall i | 0 <= i < |cells| :: |cells[i].w.data| > 0
  }

  lemma SurvivorStep(cells: seq<BioWrapper>, b: BioWrapper, n: nat, left: seq<BioWrapper>)
    requires n < |cells| && left == Survivors(cells[..n], b) + cells[n..]
    ensures var cur := |Survivors(cells[..n], b)|; var gone := cells[n] != b && CoveredBy(cells[n].w, b.w);
      && cur < |left| && left[cur] == cells[n]
      && |Survivors(cells[..n + 1], b)| == cur + (if gone then 0 else 1)
      && (gone ==> Without(left, cur) == Survivors(cells[..n + 1], b) + cells[n + 1..])
      && (!gone ==> left == Survivors(cells[..n + 1], b) + cells[n + 1..])
  {
    assert cells[..n + 1][..n] == cells[..n];
  }

  /** Which of the first `n` cells are marked on top of what was marked before. */
  ghost predicate MarkedTo(cells: seq<BioWrapper>, was: seq<bool>, b: BioWrapper, n: nat)
    reads cells
  {
    && |was| == |cells| && n <= |cells|
    && forall i | 0 <= i < |cells| ::
         cells[i].overwritten == (was[i] || (i < n && cells[i] != b && CoveredBy(cells[i].w, b.w)))
  }

  function MarksOf(cells: seq<BioWrapper>): (s: seq<bool>)
    reads cells
    ensures |s| == |cells|
  {
    seq(|cells|, i requires 0 <= i < |cells| reads cells => cells[i].overwritten)
  }

  /** The loop has gone over the first `n` of the cells there were. */
  ghost predicate DroppedTo(data: Cells, cells: seq<BioWrapper>, b: BioWrapper, n: nat)
    reads data
  {
    n <= |cells| && data.cells == Survivors(cells[..n], b) + cells[n..]
  }

  method MarkIf(c: BioWrapper, b: BioWrapper, gone: bool, ghost cells: seq<BioWrapper>, ghost was: seq<bool>, ghost n: nat)
    requires Distinct(cells) && n < |cells| && c == cells[n] && gone == (c != b && CoveredBy(c.w, b.w)) && MarkedTo(cells, was, b, n)
    modifies c
    ensures MarkedTo(cells, was, b, n + 1)
  {
    OnlyOnce(cells, n);
    hide CoveredBy;
    if gone {
      c.overwritten := true;
    }
  }

  /** The body of the loop: past the write's end, or marks and removes the entry if it
      is overwritten, or goes on to the next. */
  method DropStep(cur: CellCursor, b: BioWrapper, ghost cells: seq<BioWrapper>, ghost was: seq<bool>, ghost n: nat)
    returns (stop: bool, more: bool)
    requires Distinct(cells) && DroppedTo(cur.cm, cells, b, n) && n < |cells| && MarkedTo(cells, was, b, n)
    requires cur.Stands(|Survivors(cells[..n], b)|)
    modifies cur.mc, cur.mc.c, cur.cm, cur.cm.mm.m, cur.cm.mm.m.r, cells[n]
    ensures stop <==> b.w.pos + |b.w.data| <= cells[n].w.pos
    ensures stop ==> DroppedTo(cur.cm, cells, b, n) && MarkedTo(cells, was, b, n) && cur.cm.Valid()
    ensures !stop ==> DroppedTo(cur.cm, cells, b, n + 1) && MarkedTo(cells, was, b, n + 1)
                      && cur.Stands(|Survivors(cells[..n + 1], b)|) && (more <==> n + 1 < |cells|)
  {
    ghost var a := |Survivors(cells[..n], b)|;
    SurvivorStep(cells, b, n, cur.cm.cells);
    CursorValid(cur, a);
    hide Survivors, CoveredBy, Distinct, MarkedTo, Cells.Valid, CellCursor.Stands;
    var c := cur.Cell(a);
    stop, more := c.w.pos >= b.w.pos + |b.w.data|, true;
    if !stop {
      var gone := c != b && CoveredBy(c.w, b.w);
      MarkIf(c, b, gone, cells, was, n);
      if gone {
        more := cur.Del(a);
      } else {
        more := cur.Next(a);
      }
    }
  }

  lemma BeforeSurvives(cells: seq<BioWrapper>, b: BioWrapper, n: nat)
    requires n <= |cells| && forall i | 0 <= i < n :: cells[i].w.pos < b.w.pos
    ensures Survivors(cells[..n], b) == cells[..n] && cells[..n] + cells[n..] == cells
    ensures forall i | 0 <= i < n :: !CoveredBy(cells[i].w, b.w)
  {
    AllSurvive(cells[..n], b);
  }

  /** The loop of pending_delete_fully_overwritten, from cell `n` on. */
  method DropFrom(cur: CellCursor, b: BioWrapper, ghost cells: seq<BioWrapper>, ghost was: seq<bool>, ghost n0: nat, found: bool)
    returns (ghost n: nat)
    requires Distinct(cells) && n0 <= |cells| && DroppedTo(cur.cm, cells, b, n0) && MarkedTo(cells, was, b, n0) && cur.cm.Valid()
    requires (found ==> cur.Stands(|Survivors(cells[..n0], b)|)) && (found <==> n0 < |cells|)
    modifies cur.mc, cur.mc.c, cur.cm, cur.cm.mm.m, cur.cm.mm.m.r, cells
    ensures n <= |cells| && DroppedTo(cur.cm, cells, b, n) && MarkedTo(cells, was, b, n) && cur.cm.Valid()
    ensures n < |cells| ==> b.w.pos + |b.w.data| <= cells[n].w.pos
  {
    hide Survivors, Distinct, Sorted, CoveredBy, MarkedTo, DroppedTo, Cells.Valid, CellCursor.Stands;
    var more := found;
    n := n0;
    while more
      invariant n <= |cells| && DroppedTo(cur.cm, cells, b, n) && MarkedTo(cells, was, b, n) && cur.cm.Valid()
      invariant (more ==> cur.Stands(|Survivors(cells[..n], b)|)) && (more <==> n < |cells|)
      decreases |cells| - n
    {
      var stop;
      stop, more := DropStep(cur, b, cells, was, n);
      if stop {
        break;
      }
      CursorValid(cur, |Survivors(cells[..n + 1], b)|);
      n := n + 1;
    }
  }

  /** pending_delete_fully_overwritten: from the first key at the write's start to
      its end, marks and removes what the write covers. */
  method DropOverwritten(data: Cells, b: BioWrapper, ghost was: seq<bool>)
    requires data.Valid() && LongerThanZero(data.cells) && was == MarksOf(data.cells)
    modifies data, data.mm.m, data.mm.m.r, data.cells
    ensures data.Valid() && data.cells == Survivors(old(data.cells), b)
    ensures MarkedTo(old(data.cells), was, b, |old(data.cells)|)
  {
    InOrder(data);
    ghost var cells := data.cells;
    hide Survivors, Distinct, Sorted, CoveredBy, LongerThanZero, MarksOf, Cells.Valid, CellCursor.Stands;
    var cur := new CellCursor(data);
    var found;
    ghost var n;
    found, n := cur.SearchGE(b.w.pos);
    BeforeSurvives(cells, b, n);
    NotMarkedYet(cells, b, n);
    hide MarkedTo;
    n := DropFrom(cur, b, cells, was, n, found);
    RestSurvives(cells, b, n);
    TailSurvives(cells, b, n);
    RestUnmarked(cells, was, b, n);
  }

  lemma NotMarkedYet(cells: seq<BioWrapper>, b: BioWrapper, n: nat)
    requires n <= |cells| && forall i | 0 <= i < n :: !CoveredBy(cells[i].w, b.w)
    ensures MarkedTo(cells, MarksOf(cells), b, n)
  {
    hide CoveredBy;
  }

  lemma RestUnmarked(cells: seq<BioWrapper>, was: seq<bool>, b: BioWrapper, n: nat)
    requires MarkedTo(cells, was, b, n) && forall i | n <= i < |cells| :: !CoveredBy(cells[i].w, b.w)
    ensures MarkedTo(cells, was, b, |cells|)
  {
    hide CoveredBy;
  }

  lemma RestSurvives(cells: seq<BioWrapper>, b: BioWrapper, n: nat)
    requires Sorted(cells) && LongerThanZero(cells) && n <= |cells| && (n < |cells| ==> b.w.pos + |b.w.data| <= cells[n].w.pos)
    ensures forall i | n <= i < |cells| :: !CoveredBy(cells[i].w, b.w)
  {
  }

  // ------------------------------------------------------ overlay of a read

  /** Ordered by lsid. */
  ghost predicate ByLsid(list: seq<BioWrapper>) {
    forall i, j | 0 <= i < j < |list| :: list[i].id <= list[j].id
  }

  /** insert_to_sorted_bio_wrapper_list_by_lsid: in front of the first one with a
      greater lsid. */
  method InsertByLsid(list: seq<BioWrapper>, c: BioWrapper) returns (r: seq<BioWrapper>)
    requires ByLsid(list)
    ensures ByLsid(r) && multiset(r) == multiset(list) + multiset{c}
  {
    hide ByLsid;
    var i := 0;
    while i < |list| && list[i].id <= c.id
      invariant i <= |list| && forall j | 0 <= j < i :: list[j].id <= c.id
    {
      i := i + 1;
    }
    r := list[..i] + [c] + list[i..];
    InsertOrdered(list, c, i);
    InsertAll(list, c, i);
  }

  lemma InsertOrdered(list: seq<BioWrapper>, c: BioWrapper, i: nat)
    requires ByLsid(list) && i <= |list| && (forall j | 0 <= j < i :: list[j].id <= c.id) && (i < |list| ==> c.id < list[i].id)
    ensures ByLsid(list[..i] + [c] + list[i..])
  {
  }

  lemma InsertAll(list: seq<BioWrapper>, c: BioWrapper, i: nat)
    requires i <= |list|
    ensures multiset(list[..i] + [c] + list[i..]) == multiset(list) + multiset{c}
  {
    assert list == list[..i] + list[i..];
  }

  /** The writes of a list, in its order. */
  function WritesOfList(list: seq<BioWrapper>): (ws: seq<Write>)
    ensures |ws| == |list|
    ensures forall i | 0 <= i < |list| :: ws[i] == list[i].w
  {
    seq(|list|, i requires 0 <= i < |list| => list[i].w)
  }

  /** Cells that overlap, in cursor order. */
  function Overlapping(cells: seq<BioWrapper>, w: Write): seq<BioWrapper>
    decreases |cells|
  {
    if cells == [] then []
    else
      var last := cells[|cells| - 1];
      Overlapping(cells[..|cells| - 1], w) + if Overlap(w, last.w) then [last] else []
  }

  lemma {:induction false} OverlappingNone(cells: seq<BioWrapper>, w: Write, n: nat)
    requires n <= |cells| && forall i | n <= i < |cells| :: !Overlap(w, cells[i].w)
    ensures Overlapping(cells, w) == Overlapping(cells[..n], w)
    decreases |cells|
  {
    if n < |cells| {
      OverlappingNone(cells[..|cells| - 1], w, n);
      assert cells[..|cells| - 1][..n] == cells[..n];
    } else {
      assert cells[..n] == cells;
    }
  }

  lemma {:induction false} OverlappingEmpty(cells: seq<BioWrapper>, w: Write)
    requires forall i | 0 <= i < |cells| :: !Overlap(w, cells[i].w)
    ensures Overlapping(cells, w) == []
    decreases |cells|
  {
    if cells != [] {
      OverlappingEmpty(cells[..|cells| - 1], w);
    }
  }

  lemma {:induction false} OverlappingAre(cells: seq<BioWrapper>, w: Write, c: BioWrapper)
    ensures c in Overlapping(cells, w) <==> c in cells && Overlap(w, c.w)
    decreases |cells|
  {
    if cells != [] {
      var n := |cells| - 1;
      OverlappingAre(cells[..n], w, c);
      assert cells == cells[..n] + [cells[n]];
    }
  }

  lemma OverlappingStep(cells: seq<BioWrapper>, w: Write, n: nat)
    requires n < |cells|
    ensures Overlapping(cells[..n + 1], w) == Overlapping(cells[..n], w) + if Overlap(w, cells[n].w) then [cells[n]] else []
  {
    assert cells[..n + 1][..n] == cells[..n];
  }

  /** The map after a write was inserted: it holds the new write and exactly those
      old ones that the new one does not cover entirely. */
  ghost predicate AfterInsert(cells: seq<BioWrapper>, after: seq<BioWrapper>, b: BioWrapper) {
    && b in after && Distinct(after)
    && (forall i | 0 <= i < |after| :: after[i] == b || (after[i] in cells && !CoveredBy(after[i].w, b.w)))
    && (forall i | 0 <= i < |cells| && !CoveredBy(cells[i].w, b.w) :: cells[i] in after)
  }

  /** The map after a write was deleted: all others are still there. */
  ghost predicate AfterDelete(cells: seq<BioWrapper>, after: seq<BioWrapper>, b: BioWrapper) {
    && Distinct(after)
    && (forall i | 0 <= i < |after| :: after[i] in cells && after[i] != b)
    && (forall i | 0 <= i < |cells| && cells[i] != b :: cells[i] in after)
  }

  class PendingData {
    const data: Cells
    var maxSectors: nat

    ghost predicate Valid()
      reads this, data, data.mm.m, data.mm.m.r
    {
      data.Valid() && Bounded(data.cells, maxSectors) && LongerThanZero(data.cells)
    }

    constructor ()
      ensures Valid() && data.cells == []
      ensures fresh(data) && fresh(data.mm) && fresh(data.mm.m) && fresh(data.mm.m.r)
    {
      data := new Cells();
      maxSectors := 0;
    }

    /** pending_insert */
    method InsertCell(at: nat, b: BioWrapper)
      requires Valid() && data.Free(at) && b !in data.cells && |b.w.data| > 0
      modifies this, data, data.mm.m, data.mm.m.r
      ensures Valid() && maxSectors == Raised(old(maxSectors), b.w)
      ensures forall c :: c in data.cells <==> c == b || c in old(data.cells)
    {
      ghost var cells := data.cells;
      hide Sorted, Distinct, Bounded, LongerThanZero, Cells.Valid;
      ghost var n := data.Add(at, b);
      InsertBounded(cells, b, n, maxSectors);
      InsertedAre(cells, b, n);
      maxSectors := if maxSectors < |b.w.data| then |b.w.data| else maxSectors;
    }

    /** pending_insert_and_delete_fully_overwritten: afterwards the map holds the new
        write and those old ones that it does not cover entirely; these and no
        others are marked as overwritten. */
    method InsertAndDeleteOverwritten(at: nat, b: BioWrapper)
      requires Valid() && data.Free(at) && b !in data.cells && |b.w.data| > 0
      modifies this, data, data.mm.m, data.mm.m.r, data.cells, b
      ensures Valid() && AfterInsert(old(data.cells), data.cells, b) && maxSectors == Raised(old(maxSectors), b.w)
      ensures forall c | c in old(data.cells) :: c.overwritten == (old(c.overwritten) || CoveredBy(c.w, b.w))
    {
      ghost var before := data.cells;
      hide Sorted, Distinct, Bounded, LongerThanZero, CoveredBy, Survivors, AfterInsert, Cells.Valid;
      InsertCell(at, b);
      ghost var all, was := data.cells, MarksOf(data.cells);
      InOrder(data);
      assert forall i | 0 <= i < |all| :: all[i] == b || all[i] in before;
      DropKeeps(all, b, maxSectors);
      Dropped(all, before, b);
      DropOverwritten(data, b, was);
    }

    /** delete_bio_wrapper_from_pending_data: an overwritten write has left the map
        already. */
    method Finish(b: BioWrapper)
      requires Valid() && (b.overwritten || b in data.cells)
      modifies this, data, data.mm.m, data.mm.m.r
      ensures Valid() && if b.overwritten then data.cells == old(data.cells) else AfterDelete(old(data.cells), data.cells, b)
      ensures maxSectors == if b.overwritten then old(maxSectors) else Lowest(old(maxSectors), data.cells)
    {
      hide AfterDelete, Bounded, LongerThanZero, Cells.Valid;
      if !b.overwritten {
        Delete(b);
      }
    }

    /** pending_delete */
    method Delete(b: BioWrapper)
      requires Valid() && b in data.cells
      modifies this, data, data.mm.m, data.mm.m.r
      ensures Valid() && AfterDelete(old(data.cells), data.cells, b) && maxSectors == Lowest(old(maxSectors), data.cells)
    {
      ghost var cells := data.cells;
      InOrder(data);
      hide Sorted, Distinct, Bounded, LongerThanZero, AfterDelete, Cells.Valid;
      ghost var k := data.Del(b);
      RemoveBounded(cells, k, maxSectors);
      DeletedAre(cells, k);
      var empty := data.IsEmpty();
      EmptyIsBounded(data.cells);
      if empty {
        maxSectors := 0;
      }
    }

    /** The pending writes that overlap the read, by lsid. */
    method Collect(read: Write) returns (list: seq<BioWrapper>)
      requires Valid()
      ensures ByLsid(list) && multiset(list) == multiset(Overlapping(data.cells, read))
    {
      InOrder(data);
      hide Bounded, LongerThanZero, Overlap, Sorted, Distinct, ByLsid, Overlapping, WindowStart, Cells.Valid;
      ghost var lo, hi;
      list, lo, hi := CollectFrom(data, read, WindowStart(read, maxSectors), maxSectors);
      KeysFrom(data.cells, hi, read.pos + |read.data|);
      OutsideWindow(data.cells, read, lo, hi, maxSectors);
      OverlappingNone(data.cells, read, hi);
    }

    /** pending_check_and_copy: each sector of the read ends with exactly one of the
        pieces completed here, or stays in exactly one of those that go on to the
        data device. */
    method CheckAndCopy(r: ReadBio, inherit: bool) returns (done: seq<Piece>, ghost list: seq<BioWrapper>)
      requires Valid() && r.Valid()
      modifies r, r.buf
      ensures done == Ended(CutAll(old(r.pieces), WritesOfList(list), inherit))
      ensures forall x: nat | r.pos <= x < r.pos + r.buf.Length :: EndedOnce(done, r.pieces, x)
      ensures ByLsid(list) && multiset(list) == multiset(Overlapping(data.cells, Write(r.pos, old(r.buf[..]))))
      ensures r.buf[..] == CopyAll(old(r.buf[..]), r.pos, WritesOfList(list))
      ensures r.pieces == Unmarked(CutAll(old(r.pieces), WritesOfList(list), inherit))
    {
      hide Sorted, Distinct, ByLsid, Overlapping, Partition, CopyAll, CutAll, Unmarked, Cells.Valid;
      var got := Collect(Write(r.pos, r.buf[..]));
      list := got;
      ListLonger(data.cells, Write(r.pos, r.buf[..]), list);
      CopyEach(r, got, inherit);
      ghost var cut := r.pieces;
      done := r.EndioCopied();
      hide Ended, EndedOnce, Marked, OnOne;
      forall x: nat | r.pos <= x < r.pos + r.buf.Length ensures EndedOnce(done, r.pieces, x) {
        EachSectorOnce(cut, r.pos, r.pos + r.buf.Length, x);
      }
    }
  }

  lemma DeletedAre(cells: seq<BioWrapper>, k: nat)
    requires Distinct(cells) && k < |cells|
    ensures AfterDelete(cells, Without(cells, k), cells[k])
    ensures LongerThanZero(cells) ==> LongerThanZero(Without(cells, k))
  {
    OnlyOnce(cells, k);
    forall i | 0 <= i < |cells| && cells[i] != cells[k] ensures cells[i] in Without(cells, k) {
      assert Without(cells, k)[if i < k then i else i - 1] == cells[i];
    }
  }

  /** The body of the collecting loop: past the read's end, or one cell on. */
  method CollectStep(cur: CellCursor, read: Write, list: seq<BioWrapper>, ghost a: nat)
    returns (stop: bool, list2: seq<BioWrapper>, more: bool)
    requires cur.Stands(a) && a < |cur.cm.cells| && ByLsid(list) && multiset(list) == multiset(Overlapping(cur.cm.cells[..a], read))
    modifies cur.mc, cur.mc.c
    ensures ByLsid(list2) && (stop <==> read.pos + |read.data| <= cur.cm.cells[a].w.pos) && (stop ==> list2 == list)
    ensures !stop ==> multiset(list2) == multiset(Overlapping(cur.cm.cells[..a + 1], read))
    ensures !stop ==> cur.Stands(a + 1) && (more <==> a + 1 < |cur.cm.cells|)
  {
    OverlappingStep(cur.cm.cells, read, a);
    hide Overlap, ByLsid, Overlapping, Sorted, Distinct, Cells.Valid, CellCursor.Stands;
    var c := cur.Cell(a);
    stop, list2, more := c.w.pos >= read.pos + |read.data|, list, true;
    if !stop {
      if Overlap(read, c.w) {
        list2 := InsertByLsid(list, c);
      }
      more := cur.Next(a);
    }
  }

  /** The collecting loop of pending_check_and_copy. */
  method CollectFrom(data: Cells, read: Write, start: nat, ghost max: nat) returns (list: seq<BioWrapper>, ghost lo: nat, ghost hi: nat)
    requires data.Valid() && Bounded(data.cells, max) && start == WindowStart(read, max)
    ensures KeyFrom(data.cells, start, lo) && lo <= hi <= |data.cells|
    ensures hi < |data.cells| ==> read.pos + |read.data| <= data.cells[hi].w.pos
    ensures ByLsid(list) && multiset(list) == multiset(Overlapping(data.cells[..hi], read))
  {
    assert ByLsid([]);
    hide Overlap, ByLsid, Overlapping, WindowStart, Bounded, Cells.Valid, CellCursor.Stands;
    var cur := new CellCursor(data);
    var more;
    more, lo := cur.SearchGE(start);
    BeforeNone(data.cells, read, lo, max);
    hi, list := lo, [];
    hide KeyFrom;
    while more
      invariant lo <= hi <= |data.cells| && (more ==> cur.Stands(hi)) && (more <==> hi < |data.cells|)
      invariant ByLsid(list) && multiset(list) == multiset(Overlapping(data.cells[..hi], read))
      decreases |data.cells| - hi
    {
      var stop;
      stop, list, more := CollectStep(cur, read, list, hi);
      if stop {
        break;
      }
      hi := hi + 1;
    }
  }

  /** The copying loop of pending_check_and_copy. */
  method CopyEach(r: ReadBio, list: seq<BioWrapper>, inherit: bool)
    requires r.Valid() && forall i | 0 <= i < |list| :: |list[i].w.data| > 0
    modifies r, r.buf
    ensures r.Valid() && r.buf[..] == CopyAll(old(r.buf[..]), r.pos, WritesOfList(list))
    ensures r.pieces == CutAll(old(r.pieces), WritesOfList(list), inherit)
  {
    hide CopyIn, Cut, Partition;
    ghost var ws, ps, buf := WritesOfList(list), r.pieces, r.buf[..];
    for i := 0 to |list|
      invariant r.Valid() && r.pieces == CutAll(ps, ws[..i], inherit) && r.buf[..] == CopyAll(buf, r.pos, ws[..i])
    {
      assert ws[..i + 1][..i] == ws[..i];
      r.CopyOverlapped(list[i].w, inherit);
    }
    assert ws[..|ws|] == ws;
  }

  lemma BeforeNone(cells: seq<BioWrapper>, w: Write, lo: nat, max: nat)
    requires lo <= |cells| && Bounded(cells, max) && forall i | 0 <= i < lo :: cells[i].w.pos < WindowStart(w, max)
    ensures Overlapping(cells[..lo], w) == []
  {
    forall i | 0 <= i < lo ensures !Overlap(w, cells[..lo][i].w) {
      BeforeWindow(cells[i].w, w, max);
      OverlapSym(w, cells[i].w);
    }
    OverlappingEmpty(cells[..lo], w);
  }

  lemma ListLonger(cells: seq<BioWrapper>, w: Write, list: seq<BioWrapper>)
    requires LongerThanZero(cells) && multiset(list) == multiset(Overlapping(cells, w))
    ensures forall i | 0 <= i < |list| :: |list[i].w.data| > 0
  {
    forall i | 0 <= i < |list| ensures |list[i].w.data| > 0 {
      assert list[i] in multiset(list);
      assert list[i] in Overlapping(cells, w);
      OverlappingAre(cells, w, list[i]);
    }
  }

  lemma InsertedAre(cells: seq<BioWrapper>, b: BioWrapper, at: nat)
    requires at <= |cells|
    ensures var all := cells[..at] + [b] + cells[at..];
      (forall c :: c in all <==> c == b || c in cells)
      && (LongerThanZero(cells) && |b.w.data| > 0 ==> LongerThanZero(all))
  {
    var all := cells[..at] + [b] + cells[at..];
    assert cells == cells[..at] + cells[at..];
    assert all[at] == b;
  }

  lemma DropKeeps(all: seq<BioWrapper>, b: BioWrapper, max: nat)
    requires Sorted(all) && Distinct(all) && Bounded(all, max) && LongerThanZero(all)
    ensures var r := Survivors(all, b); Sorted(r) && Distinct(r) && Bounded(r, max) && LongerThanZero(r)
  {
    SurvivorsSorted(all, b);
    forall i | 0 <= i < |Survivors(all, b)|
      ensures |Survivors(all, b)[i].w.data| <= max && |Survivors(all, b)[i].w.data| > 0
    {
      var j := SurvivorsInside(all, b, i);
    }
  }

  lemma Dropped(all: seq<BioWrapper>, before: seq<BioWrapper>, b: BioWrapper)
    requires (forall c :: c in all <==> c == b || c in before) && b !in before && Distinct(Survivors(all, b))
    ensures AfterInsert(before, Survivors(all, b), b)
  {
    hide Distinct, Survivors, CoveredBy;
    var r := Survivors(all, b);
    SurvivorsAre(all, b, b);
    forall i | 0 <= i < |r| ensures r[i] == b || (r[i] in before && !CoveredBy(r[i].w, b.w)) {
      SurvivorsAre(all, b, r[i]);
    }
    forall i | 0 <= i < |before| && !CoveredBy(before[i].w, b.w) ensures before[i] in r {
      SurvivorsAre(all, b, before[i]);
    }
  }
}
