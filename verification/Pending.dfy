/** Reads over the pending data: module/pending_io.c and the splitting of a read in
    module/bio_wrapper.c. */
module Pending {
  import opened Words
  import opened Disk
  import opened Overlapped

  /** A bio of a read: its sectors and the mark that its data has been copied
      (the least significant bit of bi_private). */
  datatype Piece = Piece(pos: nat, len: nat, copied: bool)

  function PieceEnd(p: Piece): nat { p.pos + p.len }

  /** bvec_iter_is_overlap */
  predicate Meets(p: Piece, w: Write) {
    PieceEnd(p) > w.pos && w.pos + |w.data| > p.pos
  }

  function Max(a: nat, b: nat): nat { if a < b then b else a }

  /** What a pending write makes of a piece it meets: at most a head, the copied
      middle and a tail. The tail is the old bio and keeps its mark; whether the
      head, a fresh clone, does is up to bio_split: `inherit`. */
  function SplitPiece(p: Piece, w: Write, inherit: bool): (r: seq<Piece>)
    requires Meets(p, w)
  {
    var lo, hi := Max(p.pos, w.pos), Min(PieceEnd(p), w.pos + |w.data|);
    (if p.pos < lo then [Piece(p.pos, lo - p.pos, inherit && p.copied)] else [])
    + [Piece(lo, hi - lo, true)]
    + (if hi < PieceEnd(p) then [Piece(hi, PieceEnd(p) - hi, p.copied)] else [])
  }

  function CutOne(p: Piece, w: Write, inherit: bool): seq<Piece> {
    if Meets(p, w) then SplitPiece(p, w, inherit) else [p]
  }

  /** bio_wrapper_copy_overlapped, as far as the list of pieces is concerned. */
  function Cut(ps: seq<Piece>, w: Write, inherit: bool): seq<Piece>
    decreases |ps|
  {
    if ps == [] then []
    else Cut(ps[..|ps| - 1], w, inherit) + CutOne(ps[|ps| - 1], w, inherit)
  }

  /** The pieces follow each other without gap or overlap from `a` to `b`. */
  ghost predicate Partition(ps: seq<Piece>, a: nat, b: nat)
    decreases |ps|
  {
    if ps == [] then a == b
    else
      var last := ps[|ps| - 1];
      last.len > 0 && PieceEnd(last) == b && Partition(ps[..|ps| - 1], a, last.pos)
  }

  /** Some piece marked as copied has the sector. */
  ghost predicate Marked(ps: seq<Piece>, x: nat)
    decreases |ps|
  {
    ps != [] && (
      var last := ps[|ps| - 1];
      (last.copied && last.pos <= x < PieceEnd(last)) || Marked(ps[..|ps| - 1], x))
  }

  // ------------------------------------------------------------ the piece list

  lemma {:induction false} PartitionJoin(p: seq<Piece>, q: seq<Piece>, a: nat, m: nat, b: nat)
    requires Partition(p, a, m) && Partition(q, m, b)
    ensures Partition(p + q, a, b)
    decreases |q|
  {
    if q == [] {
      assert p + q == p;
    } else {
      var n := |q| - 1;
      PartitionJoin(p, q[..n], a, m, q[n].pos);
      assert (p + q)[..|p + q| - 1] == p + q[..n];
    }
  }

  lemma PartitionUp(ps: seq<Piece>, a: nat, b: nat)
    requires Partition(ps, a, b)
    ensures a <= b
    decreases |ps|
  {
    if ps != [] {
      PartitionUp(ps[..|ps| - 1], a, ps[|ps| - 1].pos);
    }
  }

  lemma One(p: Piece)
    requires p.len > 0
    ensures Partition([p], p.pos, PieceEnd(p))
  {
    assert [p][..0] == [];
  }

  lemma CutOnePartition(p: Piece, w: Write, inherit: bool)
    requires p.len > 0 && |w.data| > 0
    ensures Partition(CutOne(p, w, inherit), p.pos, PieceEnd(p))
  {
    One(p);
    if Meets(p, w) {
      var lo, hi := Max(p.pos, w.pos), Min(PieceEnd(p), w.pos + |w.data|);
      var head := if p.pos < lo then [Piece(p.pos, lo - p.pos, inherit && p.copied)] else [];
      var tail := if hi < PieceEnd(p) then [Piece(hi, PieceEnd(p) - hi, p.copied)] else [];
      One(Piece(lo, hi - lo, true));
      if p.pos < lo {
        One(head[0]);
      }
      if hi < PieceEnd(p) {
        One(tail[0]);
      }
      PartitionJoin(head, [Piece(lo, hi - lo, true)], p.pos, lo, hi);
      PartitionJoin(head + [Piece(lo, hi - lo, true)], tail, p.pos, hi, PieceEnd(p));
    }
  }

  /** Through all splits the pieces stay a gap-free partition of the read. */
  lemma {:induction false} CutPartition(ps: seq<Piece>, w: Write, inherit: bool, a: nat, b: nat)
    requires Partition(ps, a, b) && |w.data| > 0
    ensures Partition(Cut(ps, w, inherit), a, b)
    decreases |ps|
  {
    if ps != [] {
      var last := ps[|ps| - 1];
      CutPartition(ps[..|ps| - 1], w, inherit, a, last.pos);
      CutOnePartition(last, w, inherit);
      PartitionJoin(Cut(ps[..|ps| - 1], w, inherit), CutOne(last, w, inherit), a, last.pos, b);
    }
  }

  lemma {:induction false} MarkedJoin(p: seq<Piece>, q: seq<Piece>, x: nat)
    ensures Marked(p + q, x) <==> Marked(p, x) || Marked(q, x)
    decreases |q|
  {
    if q == [] {
      assert p + q == p;
    } else {
      var n := |q| - 1;
      MarkedJoin(p, q[..n], x);
      assert (p + q)[..|p + q| - 1] == p + q[..n];
    }
  }

  lemma MarkedOne(p: Piece, x: nat)
    ensures Marked([p], x) <==> p.copied && p.pos <= x < PieceEnd(p)
  {
    assert [p][..0] == [];
  }

  /** The mark of a sector in a split piece: gained if the write covers it, and
      lost exactly if it lies in an unmarked head. */
  lemma SplitMarks(p: Piece, w: Write, inherit: bool, x: nat)
    requires Meets(p, w) && p.pos <= x < PieceEnd(p)
    ensures Marked(SplitPiece(p, w, inherit), x) <==> Covers(w, x) || (p.copied && (inherit || w.pos <= x))
  {
    var lo, hi := Max(p.pos, w.pos), Min(PieceEnd(p), w.pos + |w.data|);
    var head := if p.pos < lo then [Piece(p.pos, lo - p.pos, inherit && p.copied)] else [];
    var tail := if hi < PieceEnd(p) then [Piece(hi, PieceEnd(p) - hi, p.copied)] else [];
    var mid := Piece(lo, hi - lo, true);
    MarkedJoin(head + [mid], tail, x);
    MarkedJoin(head, [mid], x);
    MarkedOne(mid, x);
    if p.pos < lo {
      MarkedOne(head[0], x);
    }
    if hi < PieceEnd(p) {
      MarkedOne(tail[0], x);
    }
  }

  lemma SplitOutside(p: Piece, w: Write, inherit: bool, x: nat)
    requires !(p.pos <= x < PieceEnd(p))
    ensures !Marked(CutOne(p, w, inherit), x)
  {
    MarkedOne(p, x);
    if Meets(p, w) {
      var lo, hi := Max(p.pos, w.pos), Min(PieceEnd(p), w.pos + |w.data|);
      var head := if p.pos < lo then [Piece(p.pos, lo - p.pos, inherit && p.copied)] else [];
      var tail := if hi < PieceEnd(p) then [Piece(hi, PieceEnd(p) - hi, p.copied)] else [];
      var mid := Piece(lo, hi - lo, true);
      MarkedJoin(head + [mid], tail, x);
      MarkedJoin(head, [mid], x);
      MarkedOne(mid, x);
      if p.pos < lo {
        MarkedOne(head[0], x);
      }
      if hi < PieceEnd(p) {
        MarkedOne(tail[0], x);
      }
    }
  }

  /** The sector sits in a marked piece that the write meets further up. */
  ghost predicate LosesMark(ps: seq<Piece>, w: Write, x: nat)
    decreases |ps|
  {
    ps != [] && (
      var last := ps[|ps| - 1];
      (last.copied && last.pos <= x < PieceEnd(last) && Meets(last, w) && x < w.pos) || LosesMark(ps[..|ps| - 1], w, x))
  }

  lemma {:induction false} MarkedInside(ps: seq<Piece>, a: nat, b: nat, x: nat, w: Write)
    requires Partition(ps, a, b)
    ensures Marked(ps, x) || LosesMark(ps, w, x) ==> a <= x < b
    ensures LosesMark(ps, w, x) ==> Marked(ps, x) && x < w.pos
    decreases |ps|
  {
    if ps != [] {
      var last := ps[|ps| - 1];
      MarkedInside(ps[..|ps| - 1], a, last.pos, x, w);
      PartitionUp(ps[..|ps| - 1], a, last.pos);
    }
  }

  /** Exactly which sectors are marked after a write was copied: those it covers,
      and those marked before, except the ones whose piece it cut behind them when
      a head does not inherit the mark. */
  lemma {:induction false} CutMarks(ps: seq<Piece>, w: Write, inherit: bool, a: nat, b: nat, x: nat)
    requires Partition(ps, a, b) && a <= x < b
    ensures Marked(Cut(ps, w, inherit), x)
       <==> Covers(w, x) || (Marked(ps, x) && (inherit || !LosesMark(ps, w, x)))
    decreases |ps|
  {
    if ps != [] {
      var init, last := ps[..|ps| - 1], ps[|ps| - 1];
      MarkedJoin(Cut(init, w, inherit), CutOne(last, w, inherit), x);
      MarkedInside(init, a, last.pos, x, w);
      if x < last.pos {
        CutMarks(init, w, inherit, a, last.pos, x);
        SplitOutside(last, w, inherit, x);
      } else {
        CutOutside(init, w, inherit, a, last.pos, x);
        MarkedOne(last, x);
        if Meets(last, w) {
          SplitMarks(last, w, inherit, x);
        }
      }
    }
  }

  lemma {:induction false} CutOutside(ps: seq<Piece>, w: Write, inherit: bool, a: nat, b: nat, x: nat)
    requires Partition(ps, a, b) && b <= x
    ensures !Marked(Cut(ps, w, inherit), x)
    decreases |ps|
  {
    if ps != [] {
      var init, last := ps[..|ps| - 1], ps[|ps| - 1];
      CutOutside(init, w, inherit, a, last.pos, x);
      SplitOutside(last, w, inherit, x);
      MarkedJoin(Cut(init, w, inherit), CutOne(last, w, inherit), x);
    }
  }

  // ------------------------------------------------------------- the buffer

  /** A read buffer with the sectors that the write covers copied over. */
  function CopyIn(buf: seq<Sector>, base: nat, w: Write): (r: seq<Sector>)
    ensures |r| == |buf|
    ensures forall k | 0 <= k < |buf| :: r[k] == if Covers(w, base + k) then w.data[base + k - w.pos] else buf[k]
  {
    seq(|buf|, k requires 0 <= k < |buf| => if Covers(w, base + k) then w.data[base + k - w.pos] else buf[k])
  }

  function CopyAll(buf: seq<Sector>, base: nat, ws: seq<Write>): (r: seq<Sector>)
    ensures |r| == |buf|
    decreases |ws|
  {
    if ws == [] then buf else CopyIn(CopyAll(buf, base, ws[..|ws| - 1]), base, ws[|ws| - 1])
  }

  function CutAll(ps: seq<Piece>, ws: seq<Write>, inherit: bool): seq<Piece>
    decreases |ws|
  {
    if ws == [] then ps else Cut(CutAll(ps, ws[..|ws| - 1], inherit), ws[|ws| - 1], inherit)
  }

  /** Each sector of the buffer holds what the newest covering write has. */
  lemma {:induction false} CopyAllAt(buf: seq<Sector>, base: nat, ws: seq<Write>, k: nat) returns (j: int)
    requires k < |buf|
    ensures -1 <= j < |ws|
    ensures j < 0 ==> NoWriter(ws, base + k) && CopyAll(buf, base, ws)[k] == buf[k]
    ensures j >= 0 ==> LastWriter(ws, base + k, j) && CopyAll(buf, base, ws)[k] == ws[j].data[base + k - ws[j].pos]
    decreases |ws|
  {
    if ws == [] {
      j := -1;
    } else {
      var n := |ws| - 1;
      if Covers(ws[n], base + k) {
        j := n;
      } else {
        j := CopyAllAt(buf, base, ws[..n], k);
      }
    }
  }

  lemma {:induction false} CutAllPartition(ps: seq<Piece>, ws: seq<Write>, inherit: bool, a: nat, b: nat)
    requires Partition(ps, a, b) && forall i | 0 <= i < |ws| :: |ws[i].data| > 0
    ensures Partition(CutAll(ps, ws, inherit), a, b)
    decreases |ws|
  {
    if ws != [] {
      var n := |ws| - 1;
      CutAllPartition(ps, ws[..n], inherit, a, b);
      CutPartition(CutAll(ps, ws[..n], inherit), ws[n], inherit, a, b);
    }
  }

  lemma NoWriterMore(ws: seq<Write>, x: nat)
    requires ws != []
    ensures NoWriter(ws, x) <==> NoWriter(ws[..|ws| - 1], x) && !Covers(ws[|ws| - 1], x)
  {
    hide Covers;
    assert forall i | 0 <= i < |ws| - 1 :: ws[..|ws| - 1][i] == ws[i];
  }

  /** If heads inherit the mark, exactly the covered sectors end up marked. */
  lemma {:induction false} CutAllMarks(ps: seq<Piece>, ws: seq<Write>, a: nat, b: nat, x: nat)
    requires Partition(ps, a, b) && (forall i | 0 <= i < |ws| :: |ws[i].data| > 0) && a <= x < b
    ensures Marked(CutAll(ps, ws, true), x) <==> Marked(ps, x) || !NoWriter(ws, x)
    decreases |ws|
  {
    if ws != [] {
      var n := |ws| - 1;
      CutAllMarks(ps, ws[..n], a, b, x);
      CutAllPartition(ps, ws[..n], true, a, b);
      CutMarks(CutAll(ps, ws[..n], true), ws[n], true, a, b, x);
      NoWriterMore(ws, x);
      hide NoWriter, Covers, Marked, Partition, Cut, LosesMark;
    }
  }

  // ---------------------------------------------- completed pieces are covered

  /** A piece is marked only if one of the writes covers all of it. */
  ghost predicate PieceCovered(p: Piece, ws: seq<Write>) {
    p.copied ==> exists j :: 0 <= j < |ws| && ws[j].pos <= p.pos && PieceEnd(p) <= ws[j].pos + |ws[j].data|
  }

  ghost predicate AllCovered(ps: seq<Piece>, ws: seq<Write>) {
    forall i | 0 <= i < |ps| :: PieceCovered(ps[i], ws)
  }

  lemma SmallerCovered(p: Piece, r: Piece, ws: seq<Write>, w: Write)
    requires PieceCovered(p, ws) && (r.copied ==> p.copied) && p.pos <= r.pos && PieceEnd(r) <= PieceEnd(p)
    ensures PieceCovered(r, ws + [w])
  {
    if r.copied {
      var j :| 0 <= j < |ws| && ws[j].pos <= p.pos && PieceEnd(p) <= ws[j].pos + |ws[j].data|;
      assert (ws + [w])[j] == ws[j];
    }
  }

  lemma CutOneCovered(p: Piece, ws: seq<Write>, w: Write, inherit: bool)
    requires PieceCovered(p, ws)
    ensures AllCovered(CutOne(p, w, inherit), ws + [w])
  {
    SmallerCovered(p, p, ws, w);
    if Meets(p, w) {
      var r := SplitPiece(p, w, inherit);
      forall i | 0 <= i < |r| ensures PieceCovered(r[i], ws + [w]) {
        if r[i].copied && !(w.pos <= r[i].pos && PieceEnd(r[i]) <= w.pos + |w.data|) {
          SmallerCovered(p, r[i], ws, w);
        } else {
          assert (ws + [w])[|ws|] == w;
        }
      }
    }
  }

  lemma {:induction false} CutCovered(ps: seq<Piece>, ws: seq<Write>, w: Write, inherit: bool)
    requires AllCovered(ps, ws)
    ensures AllCovered(Cut(ps, w, inherit), ws + [w])
    decreases |ps|
  {
    if ps != [] {
      CutCovered(ps[..|ps| - 1], ws, w, inherit);
      CutOneCovered(ps[|ps| - 1], ws, w, inherit);
      hide PieceCovered, CutOne;
    }
  }

  /** Every piece completed without device I/O lies wholly inside some pending
      write, whether or not heads inherit the mark. */
  lemma {:induction false} CompletedInside(ps: seq<Piece>, ws: seq<Write>, inherit: bool)
    requires forall i | 0 <= i < |ps| :: !ps[i].copied
    ensures AllCovered(CutAll(ps, ws, inherit), ws)
    decreases |ws|
  {
    if ws != [] {
      var n := |ws| - 1;
      CompletedInside(ps, ws[..n], inherit);
      CutCovered(CutAll(ps, ws[..n], inherit), ws[..n], ws[n], inherit);
      assert ws[..n] + [ws[n]] == ws;
    }
  }

  // ------------------------------------------------------------- the whole read

  /** What a read returns: a marked sector keeps what was copied, the rest is read
      from the device. */
  function ReadResult(buf: seq<Sector>, base: nat, ps: seq<Piece>, dev: Image, k: nat): Sector
    requires k < |buf| && base + k < |dev|
  {
    if MarkedAt(ps, base + k) then buf[k] else dev[base + k]
  }

  /** Marked, as a computation. */
  function MarkedAt(ps: seq<Piece>, x: nat): (r: bool)
    ensures r == Marked(ps, x)
    decreases |ps|
  {
    ps != [] && (
      var last := ps[|ps| - 1];
      (last.copied && last.pos <= x < PieceEnd(last)) || MarkedAt(ps[..|ps| - 1], x))
  }

  lemma {:induction false} NoneMarked(ps: seq<Piece>, x: nat)
    requires forall i | 0 <= i < |ps| :: !ps[i].copied
    ensures !Marked(ps, x)
    decreases |ps|
  {
    if ps != [] {
      NoneMarked(ps[..|ps| - 1], x);
    }
  }

  /** If a split-off head inherits the mark, a read returns for each sector the
      newest pending write that covers it, or the device. */
  lemma ReadIsRight(buf: seq<Sector>, base: nat, ps: seq<Piece>, ws: seq<Write>, dev: Image, k: nat) returns (j: int)
    requires k < |buf| && base + |buf| <= |dev| && Partition(ps, base, base + |buf|)
    requires (forall i | 0 <= i < |ps| :: !ps[i].copied) && forall i | 0 <= i < |ws| :: |ws[i].data| > 0
    ensures j < 0 ==> NoWriter(ws, base + k)
                      && ReadResult(CopyAll(buf, base, ws), base, CutAll(ps, ws, true), dev, k) == dev[base + k]
    ensures j >= 0 ==> LastWriter(ws, base + k, j)
                       && ReadResult(CopyAll(buf, base, ws), base, CutAll(ps, ws, true), dev, k) == ws[j].data[base + k - ws[j].pos]
  {
    NoneMarked(ps, base + k);
    CutAllMarks(ps, ws, base, base + |buf|, base + k);
    j := CopyAllAt(buf, base, ws, k);
    WriterOrNot(ws, base + k, j);
    hide CopyAll, CutAll, Marked, Partition, NoWriter, LastWriter;
  }

  lemma WriterOrNot(ws: seq<Write>, x: nat, j: int)
    requires j >= 0 ==> LastWriter(ws, x, j)
    ensures j >= 0 ==> !NoWriter(ws, x) && Covers(ws[j], x)
  {
  }

  lemma CutAllTwo(ps: seq<Piece>, u: Write, w: Write, inherit: bool)
    ensures CutAll(ps, [u, w], inherit) == Cut(Cut(ps, u, inherit), w, inherit)
  {
    hide Cut;
    assert [u, w][..1] == [u] && [u][..0] == [];
    assert CutAll(ps, [u, w][..1], inherit) == Cut(CutAll(ps, [u][..0], inherit), u, inherit);
  }

  lemma CutSingle(p: Piece, w: Write, inherit: bool)
    ensures Cut([p], w, inherit) == CutOne(p, w, inherit)
  {
    hide CutOne;
    assert [p][..0] == [];
  }

  /** The pieces of a read of two sectors over two such writes. */
  lemma StalePieces(u: Write, w: Write)
    requires u.pos == 0 && |u.data| == 2 && w.pos == 1 && |w.data| == 1
    ensures CutAll([Piece(0, 2, false)], [u, w], false) == [Piece(0, 1, false), Piece(1, 1, true)]
  {
    hide Cut, CutAll, CutOne;
    CutAllTwo([Piece(0, 2, false)], u, w, false);
    CutSingle(Piece(0, 2, false), u, false);
    CutSingle(Piece(0, 2, true), w, false);
    CutWhole(u);
    CutBehind(w);
  }

  lemma CutWhole(u: Write)
    requires u.pos == 0 && |u.data| == 2
    ensures CutOne(Piece(0, 2, false), u, false) == [Piece(0, 2, true)]
  {
  }

  lemma CutBehind(w: Write)
    requires w.pos == 1 && |w.data| == 1
    ensures CutOne(Piece(0, 2, true), w, false) == [Piece(0, 1, false), Piece(1, 1, true)]
  {
  }

  lemma HeadUnmarked()
    ensures !Marked([Piece(0, 1, false), Piece(1, 1, true)], 0)
  {
    MarkedJoin([Piece(0, 1, false)], [Piece(1, 1, true)], 0);
    MarkedOne(Piece(0, 1, false), 0);
    MarkedOne(Piece(1, 1, true), 0);
    hide Marked;
    assert [Piece(0, 1, false)] + [Piece(1, 1, true)] == [Piece(0, 1, false), Piece(1, 1, true)];
  }

  /** If it does not, a read of two sectors over two pending writes, the newer of
      which covers only the second sector, returns the device's old first sector. */
  lemma {:induction false} StaleHead(a: Sector, b: Sector, c: Sector, dev: Image)
    requires |dev| == 2 && a != dev[0]
    ensures var ws := [Write(0, [a, b]), Write(1, [c])];
      && LastWriter(ws, 0, 0)
      && ReadResult(CopyAll(dev, 0, ws), 0, CutAll([Piece(0, 2, false)], ws, false), dev, 0) == dev[0] != ws[0].data[0]
  {
    var u, w := Write(0, [a, b]), Write(1, [c]);
    StalePieces(u, w);
    HeadUnmarked();
    hide Marked, Cut, CutAll, CopyAll;
  }
}
