/** The content of a block device and what a sequence of writes makes of it. */
module Disk {
  import opened Words

  type Image = seq<Sector>

  /** A write of consecutive sectors. */
  datatype Write = Write(pos: nat, data: seq<Sector>)

  predicate Covers(w: Write, x: nat) {
    w.pos <= x < w.pos + |w.data|
  }

  predicate Fits(w: Write, size: nat) {
    w.pos + |w.data| <= size
  }

  predicate Overlap(a: Write, b: Write) {
    a.pos + |a.data| > b.pos && b.pos + |b.data| > a.pos
  }

  /** bio_wrapper_is_overwritten_by */
  predicate CoveredBy(a: Write, b: Write) {
    b.pos <= a.pos && a.pos + |a.data| <= b.pos + |b.data|
  }

  /** Two writes overlap exactly if some sector is in both. */
  lemma OverlapExactly(a: Write, b: Write)
    requires a.data != [] && b.data != []
    ensures Overlap(a, b) <==> exists x: nat :: Covers(a, x) && Covers(b, x)
  {
    var x := if a.pos < b.pos then b.pos else a.pos;
    if Overlap(a, b) {
      assert Covers(a, x) && Covers(b, x);
    }
  }

  /** A write is overwritten exactly if all its sectors are. */
  lemma CoveredExactly(a: Write, b: Write)
    requires a.data != []
    ensures CoveredBy(a, b) <==> forall x: nat | Covers(a, x) :: Covers(b, x)
  {
    if forall x: nat | Covers(a, x) :: Covers(b, x) {
      assert Covers(b, a.pos) && Covers(b, a.pos + |a.data| - 1);
    }
  }

  /** One write; a write outside the device is not possible and changes nothing. */
  function Put(d: Image, w: Write): (r: Image)
    ensures |r| == |d|
    ensures forall x | 0 <= x < |d| :: r[x] == if Fits(w, |d|) && Covers(w, x) then w.data[x - w.pos] else d[x]
  {
    if Fits(w, |d|) then d[..w.pos] + w.data + d[w.pos + |w.data|..] else d
  }

  /** The writes applied one after the other. */
  function Apply(d: Image, ws: seq<Write>): (r: Image)
    ensures |r| == |d|
    decreases |ws|
  {
    if ws == [] then d else Put(Apply(d, ws[..|ws| - 1]), ws[|ws| - 1])
  }

  lemma ApplyOne(d: Image, w: Write)
    ensures Apply(d, [w]) == Put(d, w)
  {
    assert [w][..0] == [];
  }

  lemma {:induction false} ApplyConcat(d: Image, a: seq<Write>, b: seq<Write>)
    ensures Apply(d, a + b) == Apply(Apply(d, a), b)
    decreases |b|
  {
    if b == [] {
      assert a + b == a;
    } else {
      var ab := a + b;
      assert ab[..|ab| - 1] == a + b[..|b| - 1];
      ApplyConcat(d, a, b[..|b| - 1]);
    }
  }

  ghost predicate AllFit(ws: seq<Write>, size: nat) {
    forall i | 0 <= i < |ws| :: Fits(ws[i], size)
  }

  /** `j` is the last write that covers sector `x`. */
  ghost predicate LastWriter(ws: seq<Write>, x: nat, j: nat) {
    j < |ws| && Covers(ws[j], x) && forall k | j < k < |ws| :: !Covers(ws[k], x)
  }

  ghost predicate NoWriter(ws: seq<Write>, x: nat) {
    forall k | 0 <= k < |ws| :: !Covers(ws[k], x)
  }

  /** A sector holds what its last writer wrote. */
  lemma {:induction false} ApplyLast(d: Image, ws: seq<Write>, x: nat, j: nat)
    requires AllFit(ws, |d|) && x < |d| && LastWriter(ws, x, j)
    ensures Apply(d, ws)[x] == ws[j].data[x - ws[j].pos]
    decreases |ws|
  {
    var n := |ws| - 1;
    if j < n {
      var init := ws[..n];
      assert init[j] == ws[j];
      assert !Covers(ws[n], x);
      ApplyLast(d, init, x, j);
    }
  }

  /** A sector that nothing covers keeps its content. */
  lemma {:induction false} ApplyNone(d: Image, ws: seq<Write>, x: nat)
    requires x < |d| && NoWriter(ws, x)
    ensures Apply(d, ws)[x] == d[x]
    decreases |ws|
  {
    if ws != [] {
      var n := |ws| - 1;
      assert !Covers(ws[n], x);
      ApplyNone(d, ws[..n], x);
    }
  }

  lemma {:induction false} FindLast(ws: seq<Write>, x: nat) returns (j: int)
    ensures -1 <= j < |ws|
    ensures if j < 0 then NoWriter(ws, x) else LastWriter(ws, x, j)
    decreases |ws|
  {
    if ws == [] {
      j := -1;
    } else {
      var n := |ws| - 1;
      if Covers(ws[n], x) {
        j := n;
      } else {
        j := FindLast(ws[..n], x);
      }
    }
  }

  /** Two images that agree wherever no write of `ws` reaches are equal once
      `ws` is applied to both: replaying a log forgives what it overwrites. */
  lemma ApplyForgets(d: Image, e: Image, ws: seq<Write>)
    requires |d| == |e| && AllFit(ws, |d|)
    requires forall x: nat | x < |d| && NoWriter(ws, x) :: d[x] == e[x]
    ensures Apply(d, ws) == Apply(e, ws)
  {
    forall x | 0 <= x < |d| ensures Apply(d, ws)[x] == Apply(e, ws)[x] {
      var j := FindLast(ws, x);
      if j < 0 {
        ApplyNone(d, ws, x);
        ApplyNone(e, ws, x);
      } else {
        ApplyLast(d, ws, x, j);
        ApplyLast(e, ws, x, j);
      }
    }
  }
}
