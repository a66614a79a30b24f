/** Writing packs into the ring: submit_logpack_list, submit_logpack and
    logpack_submit_bio_wrapper of module/io.c; and the round trip. */
module Submit {
  import opened Words
  import opened LogRecord
  import opened Logpack
  import opened WritePack
  import opened Disk
  import opened LogDevice
  import opened Redo
  import opened RoundTrip
  import opened Recovery

  /** A partial block write: the rest of the block stays as it was. */
  function Overwrite(was: Block, piece: seq<Sector>): (b: Block)
    ensures |b| == |was| && (|piece| <= |was| ==> piece <= b)
  {
    if |piece| <= |was| then piece + was[|piece|..] else was
  }

  lemma PieceFits(g: Geometry, data: seq<Sector>, k: nat)
    ensures |Piece(g, data, k)| <= g.nLb
  {
    MulAdd(k, 1, g.nLb);
  }

  /** The blocks of request `e` up to its `n`-th hold their pieces. */
  ghost predicate Filled(g: Geometry, dev: seq<Block>, e: Logged, n: nat)
    requires ValidImage(g, dev)
  {
    forall k | 0 <= k < n :: Piece(g, e.w.data, k) <= dev[Slot(g, e.lsid + k)]
  }

  /** The part of the block behind the `k`-th piece of the request. */
  function Rest(g: Geometry, b: Block, e: Logged, k: nat): seq<Sector> {
    var m := |Piece(g, e.w.data, k)|;
    if m <= |b| then b[m..] else []
  }

  ghost predicate RestSame(g: Geometry, was: seq<Block>, dev: seq<Block>, e: Logged, k: nat)
    requires |was| == |dev| == g.ring
  {
    Rest(g, dev[Slot(g, e.lsid + k)], e, k) == Rest(g, was[Slot(g, e.lsid + k)], e, k)
  }

  /** Where the data of the request ends inside a block the rest of it is as before. */
  ghost predicate RestKept(g: Geometry, was: seq<Block>, dev: seq<Block>, e: Logged, n: nat) {
    |was| == |dev| == g.ring && forall k | 0 <= k < n :: RestSame(g, was, dev, e, k)
  }

  lemma OtherSlot(g: Geometry, before: seq<Block>, after: seq<Block>, lo: nat, hi: nat, l: nat)
    requires OnlySlots(g, before, after, lo, hi) && (l < lo <= hi <= l + g.ring || lo <= hi <= l < lo + g.ring)
    ensures |before| == |after| == g.ring && after[Slot(g, l)] == before[Slot(g, l)]
  {
    forall m | lo <= m < hi ensures Slot(g, m) != Slot(g, l) {
      if m < l {
        SlotInjective(g, m, l);
      } else {
        SlotInjective(g, l, m);
      }
    }
  }

  lemma RestStays(g: Geometry, was: seq<Block>, before: seq<Block>, after: seq<Block>, e: Logged, n: nat)
    requires RestKept(g, was, before, e, n) && n < g.ring
    requires OnlySlots(g, was, before, e.lsid, e.lsid + n) && OnlySlots(g, before, after, e.lsid + n, e.lsid + n + 1)
    requires |after| == g.ring && RestSame(g, before, after, e, n)
    ensures RestKept(g, was, after, e, n + 1)
  {
    hide OnlySlots, Rest;
    OtherSlot(g, was, before, e.lsid, e.lsid + n, e.lsid + n);
    forall k | 0 <= k < n + 1 ensures RestSame(g, was, after, e, k) {
      if k < n {
        assert RestSame(g, was, before, e, k);
        OtherSlot(g, before, after, e.lsid + n, e.lsid + n + 1, e.lsid + k);
      }
    }
  }

  lemma FilledStays(g: Geometry, before: seq<Block>, after: seq<Block>, e: Logged, n: nat)
    requires ValidImage(g, before) && ValidImage(g, after) && Filled(g, before, e, n) && n < g.ring
    requires OnlySlots(g, before, after, e.lsid + n, e.lsid + n + 1)
    requires Piece(g, e.w.data, n) <= after[Slot(g, e.lsid + n)]
    ensures Filled(g, after, e, n + 1)
  {
    forall k | 0 <= k < n + 1 ensures Piece(g, e.w.data, k) <= after[Slot(g, e.lsid + k)] {
      if k < n {
        SlotInjective(g, e.lsid + k, e.lsid + n);
      }
    }
  }

  method SubmitBlock(g: Geometry, dev: array<Block>, l: nat, piece: seq<Sector>)
    requires ValidImage(g, dev[..]) && |piece| <= g.nLb
    modifies dev
    ensures ValidImage(g, dev[..]) && piece <= dev[..][Slot(g, l)]
    ensures dev[..][Slot(g, l)][|piece|..] == old(dev[..])[Slot(g, l)][|piece|..]
    ensures OnlySlots(g, old(dev[..]), dev[..], l, l + 1)
  {
    dev[Slot(g, l)] := Overwrite(dev[Slot(g, l)], piece);
  }

  /** logpack_submit_bio_wrapper */
  method SubmitRequest(g: Geometry, dev: array<Block>, e: Logged)
    requires ValidImage(g, dev[..]) && e.pb <= g.ring
    modifies dev
    ensures ValidImage(g, dev[..]) && Filled(g, dev[..], e, e.pb) && RestKept(g, old(dev[..]), dev[..], e, e.pb)
    ensures OnlySlots(g, old(dev[..]), dev[..], e.lsid, End(e))
  {
    for k := 0 to e.pb
      invariant ValidImage(g, dev[..]) && Filled(g, dev[..], e, k) && RestKept(g, old(dev[..]), dev[..], e, k)
      invariant OnlySlots(g, old(dev[..]), dev[..], e.lsid, e.lsid + k)
    {
      ghost var before := dev[..];
      PieceFits(g, e.w.data, k);
      SubmitBlock(g, dev, e.lsid + k, Piece(g, e.w.data, k));
      FilledStays(g, before, dev[..], e, k);
      RestStays(g, old(dev[..]), before, dev[..], e, k);
      OnlySlotsJoin(g, old(dev[..]), before, dev[..], e.lsid, e.lsid + k, e.lsid + k, e.lsid + k + 1);
    }
  }

  // ------------------------------------------------------------- one pack

  /** The first `n` requests of the pack and its header are in place. */
  ghost predicate Placed(g: Geometry, salt: u32, dev: seq<Block>, p: Pack, n: nat)
    requires ValidImage(g, dev) && |p.header.records| <= MaxRecords(g.nLb)
  {
    && dev[Slot(g, p.header.lsid)] == HeaderBlock(g, SealPack(g, salt, p))
    && n <= |LoggedOf(g, p)|
    && forall j | 0 <= j < n :: Filled(g, dev, LoggedOf(g, p)[j], LoggedOf(g, p)[j].pb)
  }

  /** Writing request `n` of a pack that fits the ring leaves the ones before. */
  lemma PlacedNext(g: Geometry, salt: u32, before: seq<Block>, after: seq<Block>, p: Pack, n: nat)
    requires ValidImage(g, before) && ValidImage(g, after) && PackOk(g, p) && NoDiscards(p)
    requires |p.header.records| <= MaxRecords(g.nLb) && NextLsid(p.header) - p.header.lsid <= g.ring
    requires Placed(g, salt, before, p, n) && n < |LoggedOf(g, p)|
    requires OnlySlots(g, before, after, LoggedOf(g, p)[n].lsid, End(LoggedOf(g, p)[n]))
    requires Filled(g, after, LoggedOf(g, p)[n], LoggedOf(g, p)[n].pb)
    ensures Placed(g, salt, after, p, n + 1)
  {
    var e := LoggedOf(g, p)[n];
    var i := PlaceOf(g, p, n);
    hide PackOk, HeaderBlock, SealPack, ValidImage, OnlySlots;
    forall l | e.lsid <= l < End(e) ensures Slot(g, l) != Slot(g, p.header.lsid) {
      SlotInjective(g, p.header.lsid, l);
    }
    SlotKept(g, before, after, e.lsid, End(e), p.header.lsid);
    forall j | 0 <= j < n ensures Filled(g, after, LoggedOf(g, p)[j], LoggedOf(g, p)[j].pb) {
      LoggedOrder(g, p, j, n);
      FilledKept(g, before, after, LoggedOf(g, p)[j], e.lsid, End(e));
    }
  }

  lemma FilledKept(g: Geometry, before: seq<Block>, after: seq<Block>, e: Logged, lo: nat, hi: nat)
    requires ValidImage(g, before) && ValidImage(g, after) && OnlySlots(g, before, after, lo, hi)
    requires End(e) <= lo <= hi <= e.lsid + g.ring && Filled(g, before, e, e.pb)
    ensures Filled(g, after, e, e.pb)
  {
    forall k | 0 <= k < e.pb ensures Piece(g, e.w.data, k) <= after[Slot(g, e.lsid + k)] {
      SlotKept(g, before, after, lo, hi, e.lsid + k);
    }
  }

  /** submit_logpack: the header block and then each request's blocks. A
      zero-size flush writes nothing. */
  method SubmitPack(g: Geometry, salt: u32, dev: array<Block>, p: Pack)
    requires ValidImage(g, dev[..]) && PackOk(g, p) && NoDiscards(p) && NextLsid(p.header) - p.header.lsid <= g.ring
    modifies dev
    ensures ValidImage(g, dev[..]) && |p.header.records| <= MaxRecords(g.nLb)
    ensures p.header.records != [] ==> Placed(g, salt, dev[..], p, |LoggedOf(g, p)|)
    ensures OnlySlots(g, old(dev[..]), dev[..], p.header.lsid, NextLsid(p.header))
  {
    AboutPack(g, p);
    if p.header.records == [] {
      return;
    }
    hide PackOk, NoDiscards, HeaderBlock, SealPack;
    ghost var was := dev[..];
    dev[Slot(g, p.header.lsid)] := HeaderBlock(g, SealPack(g, salt, p));
    ghost var end := p.header.lsid + 1;
    assert Placed(g, salt, dev[..], p, 0) && OnlySlots(g, was, dev[..], p.header.lsid, end);
    var ls := LoggedOf(g, p);
    for j := 0 to |ls|
      invariant ValidImage(g, dev[..]) && Placed(g, salt, dev[..], p, j)
      invariant p.header.lsid < end <= NextLsid(p.header) && OnlySlots(g, was, dev[..], p.header.lsid, end)
      invariant j < |ls| ==> end <= ls[j].lsid
    {
      hide ValidImage, OnlySlots, Placed, Filled, LoggedOf;
      ghost var before := dev[..];
      BetweenRequests(g, p, j);
      SubmitRequest(g, dev, ls[j]);
      PlacedNext(g, salt, before, dev[..], p, j);
      OnlySlotsJoin(g, was, before, dev[..], p.header.lsid, end, ls[j].lsid, End(ls[j]));
      end := End(ls[j]);
    }
    OnlySlotsJoin(g, was, dev[..], dev[..], p.header.lsid, end, NextLsid(p.header), NextLsid(p.header));
  }

  lemma AboutPack(g: Geometry, p: Pack)
    requires PackOk(g, p) && NoDiscards(p)
    ensures |p.header.records| <= MaxRecords(g.nLb)
    ensures p.header.records != [] ==> NextLsid(p.header) > p.header.lsid
    ensures LoggedOf(g, p) != [] ==> p.header.lsid < LoggedOf(g, p)[0].lsid
  {
    if LoggedOf(g, p) != [] {
      var i := PlaceOf(g, p, 0);
    }
  }

  lemma BetweenRequests(g: Geometry, p: Pack, j: nat)
    requires PackOk(g, p) && NoDiscards(p) && j < |LoggedOf(g, p)|
    ensures p.header.lsid < LoggedOf(g, p)[j].lsid <= End(LoggedOf(g, p)[j]) <= NextLsid(p.header)
    ensures LoggedOf(g, p)[j].pb <= NextLsid(p.header) - p.header.lsid
    ensures j + 1 < |LoggedOf(g, p)| ==> End(LoggedOf(g, p)[j]) <= LoggedOf(g, p)[j + 1].lsid
  {
    var i := PlaceOf(g, p, j);
    if j + 1 < |LoggedOf(g, p)| {
      LoggedOrder(g, p, j, j + 1);
    }
  }

  lemma PlacedIntact(g: Geometry, salt: u32, dev: seq<Block>, p: Pack, l: nat)
    requires ValidImage(g, dev) && PackOk(g, p) && NoDiscards(p) && |p.header.records| <= MaxRecords(g.nLb)
    requires Placed(g, salt, dev, p, |LoggedOf(g, p)|) && HasBlock(g, p, l)
    ensures BlockIntact(g, salt, dev, p, l)
  {
    hide PackOk, HeaderBlock, SealPack;
    forall j | 0 <= j < |LoggedOf(g, p)| && InRange(LoggedOf(g, p)[j], l)
      ensures Piece(g, LoggedOf(g, p)[j].w.data, l - LoggedOf(g, p)[j].lsid) <= dev[Slot(g, l)]
    {
      var e := LoggedOf(g, p)[j];
      assert Filled(g, dev, e, e.pb);
    }
  }

  // ------------------------------------------------------------ many packs

  /** All blocks of the first `n` packs are intact. */
  ghost predicate AllIntact(c: Config, dev: seq<Block>, ps: seq<Pack>, n: nat)
    requires ValidImage(c.g, dev)
  {
    n <= |ps| && forall i, l: nat | 0 <= i < n && HasBlock(c.g, ps[i], l) ::
      |ps[i].header.records| <= MaxRecords(c.g.nLb) && BlockIntact(c.g, c.salt, dev, ps[i], l)
  }

  /** A pack's blocks lie between its own lsid and the next pack's. */
  lemma BlocksInside(g: Geometry, p: Pack, l: nat)
    requires PackOk(g, p) && NoDiscards(p) && HasBlock(g, p, l)
    ensures p.header.lsid <= l < NextLsid(p.header)
  {
    AboutPack(g, p);
    if l != p.header.lsid {
      var j :| 0 <= j < |LoggedOf(g, p)| && InRange(LoggedOf(g, p)[j], l);
      BetweenRequests(g, p, j);
    }
  }

  lemma PackStarts(ps: seq<Pack>, start: nat, end: nat, i: nat)
    requires Chained(ps, start, end) && i < |ps|
    ensures start <= ps[i].header.lsid <= NextLsid(ps[i].header) <= end
    ensures forall k | 0 <= k < i :: NextLsid(ps[k].header) <= ps[i].header.lsid
  {
    ChainUp(ps, start, end, 0, i);
    ChainUp(ps, start, end, if i + 1 < |ps| then i + 1 else i, |ps| - 1);
    forall k | 0 <= k < i ensures NextLsid(ps[k].header) <= ps[i].header.lsid {
      ChainUp(ps, start, end, k + 1, i);
    }
  }

  lemma {:induction false} ChainUp(ps: seq<Pack>, start: nat, end: nat, i: nat, k: nat)
    requires Chained(ps, start, end) && i <= k < |ps|
    ensures ps[i].header.lsid <= ps[k].header.lsid <= NextLsid(ps[k].header)
    decreases k
  {
    if i < k {
      ChainUp(ps, start, end, i, k - 1);
    }
  }

  /** What one pack writes leaves the blocks of the packs before it alone, as
      long as all of them fit the ring together. */
  lemma IntactStays(c: Config, before: seq<Block>, after: seq<Block>, ps: seq<Pack>, start: nat, end: nat, n: nat)
    requires ValidImage(c.g, before) && ValidImage(c.g, after) && GoodPacks(c.g, ps)
    requires Chained(ps, start, end) && end - start <= c.g.ring && n < |ps|
    requires AllIntact(c, before, ps, n)
    requires OnlySlots(c.g, before, after, ps[n].header.lsid, NextLsid(ps[n].header))
    requires |ps[n].header.records| <= MaxRecords(c.g.nLb)
    requires ps[n].header.records != [] ==> Placed(c.g, c.salt, after, ps[n], |LoggedOf(c.g, ps[n])|)
    ensures AllIntact(c, after, ps, n + 1)
  {
    PackStarts(ps, start, end, n);
    forall i, l: nat | 0 <= i < n + 1 && HasBlock(c.g, ps[i], l)
      ensures |ps[i].header.records| <= MaxRecords(c.g.nLb) && BlockIntact(c.g, c.salt, after, ps[i], l)
    {
      if i == n {
        PlacedIntact(c.g, c.salt, after, ps[n], l);
      } else {
        PackStarts(ps, start, end, i);
        BlocksInside(c.g, ps[i], l);
        BlockStays(c, before, after, ps[i], l, ps[n].header.lsid, NextLsid(ps[n].header));
      }
    }
  }

  lemma BlockStays(c: Config, before: seq<Block>, after: seq<Block>, p: Pack, l: nat, lo: nat, hi: nat)
    requires ValidImage(c.g, before) && ValidImage(c.g, after) && OnlySlots(c.g, before, after, lo, hi)
    requires l < lo <= hi <= l + c.g.ring && |p.header.records| <= MaxRecords(c.g.nLb)
    requires BlockIntact(c.g, c.salt, before, p, l)
    ensures BlockIntact(c.g, c.salt, after, p, l)
  {
    SlotKept(c.g, before, after, lo, hi, l);
  }

  /** submit_logpack_list: the packs of a list that fits the ring all end up
      intact in it. */
  method SubmitPacks(c: Config, dev: array<Block>, ps: seq<Pack>, ghost start: nat, ghost end: nat)
    requires ValidImage(c.g, dev[..]) && GoodPacks(c.g, ps) && Chained(ps, start, end) && end - start <= c.g.ring
    modifies dev
    ensures ValidImage(c.g, dev[..]) && AllIntact(c, dev[..], ps, |ps|)
    ensures OnlySlots(c.g, old(dev[..]), dev[..], start, end)
  {
    for n := 0 to |ps|
      invariant ValidImage(c.g, dev[..]) && AllIntact(c, dev[..], ps, n)
      invariant OnlySlots(c.g, old(dev[..]), dev[..], start, if n == |ps| then end else ps[n].header.lsid)
    {
      ghost var was, before := old(dev[..]), dev[..];
      PackStarts(ps, start, end, n);
      assert PackOk(c.g, ps[n]) && NoDiscards(ps[n]);
      hide PackOk, NoDiscards, AllIntact, OnlySlots, ValidImage, Placed, GoodPacks;
      SubmitPack(c.g, c.salt, dev, ps[n]);
      IntactStays(c, before, dev[..], ps, start, end, n);
      OnlySlotsJoin(c.g, was, before, dev[..], start, ps[n].header.lsid, ps[n].header.lsid, NextLsid(ps[n].header));
      assert NextLsid(ps[n].header) == if n + 1 == |ps| then end else ps[n + 1].header.lsid;
    }
  }

  // ------------------------------------------------------------- round trip

  lemma IntactDetects(c: Config, dev: seq<Block>, ps: seq<Pack>)
    requires ValidImage(c.g, dev) && GoodPacks(c.g, ps) && AllIntact(c, dev, ps, |ps|)
    ensures DetectsInside(c, dev, ps)
  {
    forall i | 0 <= i < |ps| ensures PackDetects(c, dev, ps[i]) {
      PackIntactDetects(c, dev, ps, i);
    }
    forall i | 0 <= i < |ps| && ps[i].header.records != [] && Accepts(c, dev, ps[i].header.lsid)
      ensures |ps[i].header.records| <= MaxRecords(c.g.nLb)
      ensures dev[Slot(c.g, ps[i].header.lsid)] == HeaderBlock(c.g, SealPack(c.g, c.salt, ps[i]))
    {
      assert HasBlock(c.g, ps[i], ps[i].header.lsid);
    }
  }

  lemma PieceIntact(c: Config, dev: seq<Block>, ps: seq<Pack>, i: nat, j: nat, k: nat)
    requires ValidImage(c.g, dev) && AllIntact(c, dev, ps, |ps|) && i < |ps| && j < |LoggedOf(c.g, ps[i])|
    requires k < LoggedOf(c.g, ps[i])[j].pb
    ensures var e := LoggedOf(c.g, ps[i])[j]; Piece(c.g, e.w.data, k) <= dev[Slot(c.g, e.lsid + k)]
  {
    var p := ps[i];
    var e := LoggedOf(c.g, p)[j];
    assert p.header.records != [];
    hide Piece, LoggedOf, Slot;
    assert InRange(e, e.lsid + k);
    assert HasBlock(c.g, p, e.lsid + k);
    hide HasBlock;
    assert BlockIntact(c.g, c.salt, dev, p, e.lsid + k);
    hide AllIntact;
  }

  lemma WholeBlocks(c: Config, dev: seq<Block>, e: Logged)
    requires ValidImage(c.g, dev)
    ensures forall k | 0 <= k < |BlocksAt(c, dev, e)| :: |BlocksAt(c, dev, e)[k]| == c.g.nLb
  {
    forall k | 0 <= k < |BlocksAt(c, dev, e)| ensures |BlocksAt(c, dev, e)[k]| == c.g.nLb {
      assert BlocksAt(c, dev, e)[k] == dev[Slot(c.g, e.lsid + k)];
    }
  }

  lemma BlocksIntact(c: Config, dev: seq<Block>, ps: seq<Pack>, i: nat, j: nat)
    requires ValidImage(c.g, dev) && AllIntact(c, dev, ps, |ps|) && i < |ps| && j < |LoggedOf(c.g, ps[i])|
    ensures RequestIntact(c, dev, LoggedOf(c.g, ps[i])[j])
  {
    hide Piece, LoggedOf, AllIntact;
    var e := LoggedOf(c.g, ps[i])[j];
    hide ValidImage;
    WholeBlocks(c, dev, e);
    forall k | 0 <= k < |BlocksAt(c, dev, e)| ensures Piece(c.g, e.w.data, k) <= BlocksAt(c, dev, e)[k] {
      PieceIntact(c, dev, ps, i, j, k);
    }
  }

  lemma PackIntactDetects(c: Config, dev: seq<Block>, ps: seq<Pack>, i: nat)
    requires ValidImage(c.g, dev) && GoodPacks(c.g, ps) && AllIntact(c, dev, ps, |ps|) && i < |ps|
    ensures PackDetects(c, dev, ps[i])
  {
    assert PackOk(c.g, ps[i]) && NoDiscards(ps[i]);
    hide PackOk, NoDiscards, GoodPacks, AllIntact, ValidImage, Pieces, LoggedOf;
    forall j | 0 <= j < |LoggedOf(c.g, ps[i])| ensures RequestDetects(c, dev, LoggedOf(c.g, ps[i])[j]) {
      var e := LoggedOf(c.g, ps[i])[j];
      BlocksIntact(c, dev, ps, i, j);
      BlockCount(c.g, ps[i], j);
      IntactData(c.g, BlocksAt(c, dev, e), e.w.data);
    }
  }

  /** The data writes among the requests: all but the zero-size flushes. */
  function DataWrites(bios: seq<Bio>): seq<Write>
    decreases |bios|
  {
    if bios == [] then []
    else (if bios[0].len == 0 then [] else [Write(bios[0].pos, bios[0].data)]) + DataWrites(bios[1..])
  }

  lemma {:induction false} DataWritesConcat(a: seq<Bio>, b: seq<Bio>)
    ensures DataWrites(a + b) == DataWrites(a) + DataWrites(b)
    decreases |a|
  {
    if a == [] {
      assert a + b == b;
    } else {
      assert (a + b)[1..] == a[1..] + b;
      DataWritesConcat(a[1..], b);
    }
  }

  lemma {:induction false} DataWritesAll(bios: seq<Bio>)
    requires forall i | 0 <= i < |bios| :: bios[i].len > 0
    ensures DataWrites(bios) == seq(|bios|, j requires 0 <= j < |bios| => Write(bios[j].pos, bios[j].data))
    decreases |bios|
  {
    if bios != [] {
      DataWritesAll(bios[1..]);
    }
  }

  lemma PackWrites(g: Geometry, p: Pack)
    requires PackOk(g, p)
    ensures WritesOf(LoggedOf(g, p)) == DataWrites(p.bios)
  {
    if p.header.records == [] {
      assert p.bios == [p.bios[0]] && p.bios[1..] == [];
    } else {
      DataWritesAll(p.bios);
    }
  }

  lemma {:induction false} AllLoggedConcat(g: Geometry, a: seq<Pack>, b: seq<Pack>)
    ensures AllLogged(g, a + b) == AllLogged(g, a) + AllLogged(g, b)
    decreases |a|
  {
    if a == [] {
      assert a + b == b;
    } else {
      assert (a + b)[1..] == a[1..] + b;
      AllLoggedConcat(g, a[1..], b);
    }
  }

  lemma LastLogged(g: Geometry, init: seq<Pack>, last: Pack)
    ensures AllLogged(g, init + [last]) == AllLogged(g, init) + LoggedOf(g, last)
  {
    AllLoggedConcat(g, init, [last]);
    assert [last][1..] == [];
    hide LoggedOf;
    assert AllLogged(g, [last]) == LoggedOf(g, last) + AllLogged(g, [last][1..]);
  }

  lemma LastHolds(g: Geometry, init: seq<Pack>, last: Pack)
    requires PackOk(g, last) && WritesOf(AllLogged(g, init)) == DataWrites(AllBios(init))
    ensures WritesOf(AllLogged(g, init + [last])) == DataWrites(AllBios(init) + last.bios)
  {
    hide PackOk, LoggedOf, DataWrites, WritesOf, AllLogged, AllBios;
    PackWrites(g, last);
    LastLogged(g, init, last);
    DataWritesConcat(AllBios(init), last.bios);
    WritesOfConcat(AllLogged(g, init), LoggedOf(g, last));
  }

  /** The log of a list of packs holds the writes of their requests, in order. */
  lemma {:induction false} LogHoldsWrites(g: Geometry, ps: seq<Pack>)
    requires forall i | 0 <= i < |ps| :: PackOk(g, ps[i])
    ensures WritesOf(AllLogged(g, ps)) == DataWrites(AllBios(ps))
    decreases |ps|
  {
    hide PackOk, LoggedOf;
    if ps == [] {
      assert AllLogged(g, ps) == [] && AllBios(ps) == [];
    } else {
      hide DataWrites, WritesOf, AllLogged;
      var init, last := ps[..|ps| - 1], ps[|ps| - 1];
      LogHoldsWrites(g, init);
      LastHolds(g, init, last);
      assert ps == init + [last];
      assert AllBios(ps) == AllBios(init) + last.bios;
    }
  }

  /** Replay of a log that is intact from start to end: all of its writes, and then
      whatever replay does at its end. So it ends where the log ends if and only if
      the block found there does not take it on. */
  lemma IntactReplay(c: Config, dev: seq<Block>, ps: seq<Pack>, start: nat, end: nat, d: Image)
    requires ValidImage(c.g, dev) && GoodPacks(c.g, ps) && Chained(ps, start, end) && AllIntact(c, dev, ps, |ps|)
    requires AllFit(WritesOf(AllLogged(c.g, ps)), |d|)
    ensures Passes(d, WritesOf(AllLogged(c.g, ps)), RedoLog(c, dev, start), RedoLog(c, dev, end))
    ensures end <= RedoLog(c, dev, start).next
    ensures RedoLog(c, dev, start).next == end <==> !GoesOn(c, dev, end)
    ensures !GoesOn(c, dev, end) ==>
              Apply(d, Writes(RedoLog(c, dev, start).ios)) == Apply(d, WritesOf(AllLogged(c.g, ps)))
  {
    hide ValidImage, GoodPacks, Chained, AllIntact, AllFit, RedoLog, GoesOn, AllLogged, WritesOf, DetectsInside, Kept, Lost;
    IntactDetects(c, dev, ps);
    var kept := Span(start, end);
    AllKept(c, dev, ps, start, end, kept);
    var k := RedoFollows(c, dev, ps, start, end, kept, d);
    var ls := AllLogged(c.g, ps);
    NoneLost(c, ps, start, end, kept, ls, k);
    GoesOnMeans(c, dev, end);
    RedoForward(c, dev, end);
  }

  /** The round trip. Requests that are packed and submitted into the ring come
      back from replay as exactly the same writes in the same order, and replay
      ends exactly where the log ends, if and only if no old header of that lsid
      is lying there to take replay on. */
  lemma PackReplayRoundTrip(c: Config, maxPb: nat, start: u64, bios: seq<Bio>, dev: seq<Block>, d: Image)
    requires c.g.ring >= MAX_TOTAL_IO_SIZE && Room(start, |bios|)
    requires forall i | 0 <= i < |bios| :: Packable(c.g, bios[i]) && !bios[i].discard
    requires AllFit(DataWrites(bios), |d|)
    requires ValidImage(c.g, dev)
    requires AllIntact(c, dev, PackAll(c.g, maxPb, start, bios).packs, |PackAll(c.g, maxPb, start, bios).packs|)
    ensures var o, end := RedoLog(c, dev, start), PackAll(c.g, maxPb, start, bios).latest;
      && (o.next == end <==> !GoesOn(c, dev, end))
      && (!GoesOn(c, dev, end) ==> Apply(d, Writes(o.ios)) == Apply(d, DataWrites(bios)))
  {
    var st := PackAll(c.g, maxPb, start, bios);
    PackAllOk(c.g, maxPb, start, bios);
    PackedGood(c.g, st.packs, bios);
    LogHoldsWrites(c.g, st.packs);
    hide PackAll, PackOk, GoodPacks, ValidImage, Packable, Chained, AllIntact, RedoLog, GoesOn, Passes;
    IntactReplay(c, dev, st.packs, start, st.latest, d);
  }

  lemma PackedGood(g: Geometry, ps: seq<Pack>, bios: seq<Bio>)
    requires (forall p | p in ps :: PackOk(g, p)) && AllBios(ps) == bios
    requires forall i | 0 <= i < |bios| :: !bios[i].discard
    ensures GoodPacks(g, ps)
  {
    forall i | 0 <= i < |ps| ensures PackOk(g, ps[i]) && NoDiscards(ps[i]) {
      forall j | 0 <= j < |ps[i].bios| ensures !ps[i].bios[j].discard {
        BioAmongAll(ps, i, j);
      }
    }
  }

  lemma {:induction false} BioAmongAll(ps: seq<Pack>, i: nat, j: nat)
    requires i < |ps| && j < |ps[i].bios|
    ensures exists k :: 0 <= k < |AllBios(ps)| && AllBios(ps)[k] == ps[i].bios[j]
    decreases |ps|
  {
    var init := ps[..|ps| - 1];
    if i < |init| {
      BioAmongAll(init, i, j);
      var k :| 0 <= k < |AllBios(init)| && AllBios(init)[k] == ps[i].bios[j];
      assert AllBios(ps)[k] == ps[i].bios[j];
    } else {
      assert AllBios(ps)[|AllBios(init)| + j] == ps[i].bios[j];
    }
  }

  lemma AllKept(c: Config, dev: seq<Block>, ps: seq<Pack>, start: nat, end: nat, kept: set<nat>)
    requires ValidImage(c.g, dev) && GoodPacks(c.g, ps) && AllIntact(c, dev, ps, |ps|) && Chained(ps, start, end)
    ensures Kept(c, dev, ps, kept)
  {
    hide PackOk, HasBlock, BlockIntact;
  }

  lemma NoneLost(c: Config, ps: seq<Pack>, start: nat, end: nat, kept: set<nat>, ls: seq<Logged>, k: nat)
    requires GoodPacks(c.g, ps) && Chained(ps, start, end) && (forall l: nat | start <= l < end :: l in kept)
    requires k <= |ls| && (k < |ls| ==> Lost(c.g, ps, kept, ls[k]))
    ensures k == |ls|
  {
    if k < |ls| {
      var i, l: nat :| 0 <= i < |ps| && HasBlock(c.g, ps[i], l) && l < End(ls[k]) && l !in kept;
      PackStarts(ps, start, end, i);
      BlocksInside(c.g, ps[i], l);
    }
  }
}
