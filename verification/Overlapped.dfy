/** Serialising overlapped writes to the data device: module/overlapped_io.c, and
    sim/overlap/sim.py, whose brute-force filter is the specification here. */
module Overlapped {
  import opened Words
  import opened Disk

  /** A write in the overlap map. `n` is n_overlapped, `delayed` is
      BIO_WRAPPER_DELAYED; entries stand in the order of insertion. */
  datatype Entry = Entry(id: nat, w: Write, n: nat, delayed: bool)

  /** OverlappingData.getOverlapping, counted. */
  function Count(q: seq<Entry>, w: Write): (n: nat)
    ensures n <= |q|
    decreases |q|
  {
    if q == [] then 0 else Count(q[..|q| - 1], w) + if Overlap(q[|q| - 1].w, w) then 1 else 0
  }

  /** overlapped_check_and_insert */
  function Insert(q: seq<Entry>, id: nat, w: Write): seq<Entry> {
    q + [Entry(id, w, Count(q, w), Count(q, w) > 0)]
  }

  function Without<T>(q: seq<T>, k: nat): (r: seq<T>)
    requires k < |q|
    ensures |r| == |q| - 1
    ensures forall i | 0 <= i < |r| :: r[i] == if i < k then q[i] else q[i + 1]
  {
    q[..k] + q[k + 1..]
  }

  /** n_overlapped-- of one entry, if it overlaps; C would wrap around at zero. */
  function Lower(e: Entry, w: Write): Entry {
    if Overlap(w, e.w) then e.(n := if e.n > 0 then e.n - 1 else U32_SIZE - 1) else e
  }

  /** overlapped_delete_and_notify: entry `k` leaves and all overlapping ones count
      down. */
  function Delete(q: seq<Entry>, k: nat): (r: seq<Entry>)
    requires k < |q|
    ensures |r| == |q| - 1
    ensures forall i | 0 <= i < |r| :: r[i] == Lower(if i < k then q[i] else q[i + 1], q[k].w)
  {
    var rest := Without(q, k);
    seq(|q| - 1, i requires 0 <= i < |q| - 1 => Lower(rest[i], q[k].w))
  }

  /** The entries whose count reaches zero when `k` is deleted. */
  predicate Released(q: seq<Entry>, k: nat, i: nat)
    requires k < |q| && i < |q| - 1
  {
    var e := Without(q, k)[i];
    Overlap(q[k].w, e.w) && Delete(q, k)[i].n == 0
  }

  // ---------------------------------------------------------------- invariant

  /** Each entry counts exactly the overlapping entries inserted before it. */
  ghost predicate CountsOk(q: seq<Entry>) {
    forall i | 0 <= i < |q| :: q[i].n == Count(q[..i], q[i].w)
  }

  lemma OverlapSym(a: Write, b: Write)
    ensures Overlap(a, b) == Overlap(b, a)
  {
  }

  lemma {:induction false} CountZero(q: seq<Entry>, w: Write)
    ensures Count(q, w) == 0 <==> forall i | 0 <= i < |q| :: !Overlap(q[i].w, w)
    decreases |q|
  {
    if q != [] {
      var init := q[..|q| - 1];
      CountZero(init, w);
      assert forall i | 0 <= i < |init| :: init[i] == q[i];
    }
  }

  /** Only the writes of the entries matter for a count. */
  lemma {:induction false} CountSame(q: seq<Entry>, r: seq<Entry>, w: Write)
    requires |q| == |r| && forall i | 0 <= i < |q| :: q[i].w == r[i].w
    ensures Count(q, w) == Count(r, w)
    decreases |q|
  {
    if q != [] {
      CountSame(q[..|q| - 1], r[..|r| - 1], w);
    }
  }

  /** Taking one entry out lowers the count by one exactly if it overlaps. */
  lemma {:induction false} CountWithout(q: seq<Entry>, k: nat, w: Write)
    requires k < |q|
    ensures Count(q, w) == Count(Without(q, k), w) + if Overlap(q[k].w, w) then 1 else 0
    decreases |q|
  {
    var n := |q| - 1;
    if k == n {
      assert Without(q, k) == q[..n];
    } else {
      CountWithout(q[..n], k, w);
      assert Without(q, k)[..n - 1] == Without(q[..n], k);
    }
  }

  lemma InsertKeeps(q: seq<Entry>, id: nat, w: Write)
    requires CountsOk(q)
    ensures CountsOk(Insert(q, id, w))
  {
    var r := Insert(q, id, w);
    forall i | 0 <= i < |r| ensures r[i].n == Count(r[..i], r[i].w) {
      assert i < |q| ==> r[..i] == q[..i];
      assert i == |q| ==> r[..i] == q;
    }
  }

  /** Entries of the queue before position `i` of the queue without `k`. */
  lemma TakeWithout(q: seq<Entry>, k: nat, i: nat)
    requires k < |q| && i <= |q| - 1
    ensures i <= k ==> Without(q, k)[..i] == q[..i]
    ensures k < i ==> Without(q, k)[..i] == Without(q[..i + 1], k)
  {
  }

  lemma DeleteCounts(q: seq<Entry>, k: nat, i: nat)
    requires k < |q| && i < |q| - 1
    ensures Delete(q, k)[i].w == Without(q, k)[i].w
    ensures Count(Delete(q, k)[..i], Delete(q, k)[i].w) == Count(Without(q, k)[..i], Without(q, k)[i].w)
  {
    hide Without, Overlap;
    CountSame(Delete(q, k)[..i], Without(q, k)[..i], Without(q, k)[i].w);
  }

  /** An entry that goes must have nothing left to wait for: all its overlapping
      entries come after it and have counted it. */
  lemma EarlierEntry(q: seq<Entry>, k: nat, i: nat)
    requires CountsOk(q) && i < k < |q| && q[k].n == 0
    ensures Delete(q, k)[i].n == q[i].n == Count(Without(q, k)[..i], q[i].w)
  {
    ReadyExactly(q, k);
    assert !Overlap(q[i].w, q[k].w);
    OverlapSym(q[k].w, q[i].w);
    TakeWithout(q, k, i);
    hide Without, Overlap, Count;
    assert q[i].n == Count(q[..i], q[i].w);
  }

  lemma LaterEntry(q: seq<Entry>, k: nat, i: nat)
    requires CountsOk(q) && k <= i < |q| - 1
    ensures Delete(q, k)[i].n == Count(Without(q, k)[..i], q[i + 1].w)
  {
    hide Overlap, Count;
    OverlapSym(q[k].w, q[i + 1].w);
    CountWithout(q[..i + 1], k, q[i + 1].w);
    LaterTake(q, k, i);
    assert q[i + 1].n == Count(q[..i + 1], q[i + 1].w);
  }

  lemma LaterTake(q: seq<Entry>, k: nat, i: nat)
    requires k <= i < |q| - 1
    ensures Without(q[..i + 1], k) == Without(q, k)[..i]
  {
  }

  lemma DeleteEntry(q: seq<Entry>, k: nat, i: nat)
    requires CountsOk(q) && k < |q| && q[k].n == 0 && i < |q| - 1
    ensures Delete(q, k)[i].n == Count(Delete(q, k)[..i], Delete(q, k)[i].w)
  {
    DeleteCounts(q, k, i);
    hide Count, Overlap, CountsOk, Delete;
    if i < k {
      EarlierEntry(q, k, i);
    } else {
      LaterEntry(q, k, i);
    }
  }

  lemma DeleteKeeps(q: seq<Entry>, k: nat)
    requires CountsOk(q) && k < |q| && q[k].n == 0
    ensures CountsOk(Delete(q, k))
  {
    forall i | 0 <= i < |Delete(q, k)| ensures Delete(q, k)[i].n == Count(Delete(q, k)[..i], Delete(q, k)[i].w) {
      DeleteEntry(q, k, i);
    }
  }

  /** The count never wraps around below zero. */
  lemma NoUnderflow(q: seq<Entry>, k: nat, i: nat)
    requires CountsOk(q) && k < |q| && q[k].n == 0 && i < |q| && i != k && Overlap(q[k].w, q[i].w)
    ensures k < i && q[i].n > 0
  {
    OverlapSym(q[k].w, q[i].w);
    if i < k {
      ReadyExactly(q, k);
    } else {
      ReadyExactly(q, i);
    }
  }

  /** An entry may go exactly when no overlapping entry was inserted before it:
      the check of the brute-force simulator. */
  lemma ReadyExactly(q: seq<Entry>, i: nat)
    requires CountsOk(q) && i < |q|
    ensures q[i].n == 0 <==> forall j | 0 <= j < i :: !Overlap(q[j].w, q[i].w)
  {
    CountZero(q[..i], q[i].w);
    assert forall j | 0 <= j < i :: q[..i][j] == q[j];
  }

  /** The first entry has nothing to wait for: the queue cannot deadlock. */
  lemma FirstIsReady(q: seq<Entry>)
    requires CountsOk(q) && q != []
    ensures q[0].n == 0
  {
    assert q[..0] == [];
  }

  /** Two entries that are both free to be in flight do not overlap. */
  lemma NoTwoInFlight(q: seq<Entry>, i: nat, j: nat)
    requires CountsOk(q) && i < j < |q| && q[i].n == 0 && q[j].n == 0
    ensures !Overlap(q[i].w, q[j].w)
  {
    ReadyExactly(q, j);
  }
}
