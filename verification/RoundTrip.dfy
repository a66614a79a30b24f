/** Replay undoes packing: what module/logpack.c and module/io.c put into the
    ring, module/redo.c reads back. */
module RoundTrip {
  import opened Words
  import opened Checksum
  import opened LogRecord
  import opened Logpack
  import opened WritePack
  import opened Disk
  import opened LogDevice
  import opened Redo

  /** The data writes among the I/Os, in order. */
  function Writes(ios: seq<Io>): seq<Write>
    decreases |ios|
  {
    if ios == [] then []
    else Writes(ios[..|ios| - 1]) + match ios[|ios| - 1] { case DataIo(w) => [w] case DiscardIo(_, _) => [] }
  }

  lemma {:induction false} WritesConcat(a: seq<Io>, b: seq<Io>)
    ensures Writes(a + b) == Writes(a) + Writes(b)
    decreases |b|
  {
    if b == [] {
      assert a + b == a;
    } else {
      var ab := a + b;
      assert ab[..|ab| - 1] == a + b[..|b| - 1];
      WritesConcat(a, b[..|b| - 1]);
    }
  }

  function WritesOf(ls: seq<Logged>): (ws: seq<Write>)
    ensures |ws| == |ls|
  {
    seq(|ls|, i requires 0 <= i < |ls| => ls[i].w)
  }

  lemma WritesOfConcat(a: seq<Logged>, b: seq<Logged>)
    ensures WritesOf(a + b) == WritesOf(a) + WritesOf(b)
  {
  }

  // ------------------------------------------------------ blocks and sectors

  /** Each block begins with its piece of the data. */
  ghost predicate Pieces(g: Geometry, blocks: seq<Block>, data: seq<Sector>) {
    forall k | 0 <= k < |blocks| :: |blocks[k]| == g.nLb && Piece(g, data, k) <= blocks[k]
  }

  lemma {:induction false} DataOfPieces(g: Geometry, blocks: seq<Block>, data: seq<Sector>)
    requires Pieces(g, blocks, data)
    ensures DataOf(blocks, |data|) == data[..Min(|data|, |blocks| * g.nLb)]
    decreases |blocks|
  {
    if blocks != [] {
      var k := |blocks| - 1;
      DataOfPieces(g, blocks[..k], data);
      MulAdd(k, 1, g.nLb);
      var b, at := blocks[k], k * g.nLb;
      if at < |data| {
        var end := Min(|data|, at + g.nLb);
        assert Piece(g, data, k) == data[at..end];
        assert b[..end - at] == data[at..end];
        assert data[..at] + data[at..end] == data[..end];
      }
    }
  }

  /** Intact blocks give back the data they were cut from. */
  lemma IntactData(g: Geometry, blocks: seq<Block>, data: seq<Sector>)
    requires Pieces(g, blocks, data) && |blocks| == CapacityPb(g.nLb, |data|)
    ensures DataOf(blocks, |data|) == data
  {
    DataOfPieces(g, blocks, data);
    CapacityPbTight(g.nLb, |data|);
  }

  lemma PutTwice(d: Image, pos: nat, a: seq<Sector>, b: seq<Sector>)
    requires pos + |a| + |b| <= |d|
    ensures Put(Put(d, Write(pos, a)), Write(pos + |a|, b)) == Put(d, Write(pos, a + b))
  {
  }

  lemma {:induction false} DataIosOnlyWrites(off: nat, blocks: seq<Block>, n: nat)
    ensures |Writes(DataIos(off, blocks, n))| == |blocks|
    decreases |blocks|
  {
    if blocks != [] {
      DataIosOnlyWrites(off, blocks[..|blocks| - 1], n);
    }
  }

  /** Writing a request back block by block is writing it at once. */
  lemma {:induction false} DataIosApply(d: Image, off: nat, blocks: seq<Block>, n: nat)
    requires off + n <= |d|
    ensures Apply(d, Writes(DataIos(off, blocks, n))) == Put(d, Write(off, DataOf(blocks, n)))
    decreases |blocks|
  {
    if blocks == [] {
      assert Put(d, Write(off, [])) == d;
    } else {
      var init, b := blocks[..|blocks| - 1], blocks[|blocks| - 1];
      var got := DataOf(init, n);
      var piece := b[..Min(|b|, n - |got|)];
      DataIosApply(d, off, init, n);
      var ios := DataIos(off, blocks, n);
      assert ios[..|ios| - 1] == DataIos(off, init, n);
      var ws := Writes(ios);
      assert ws == Writes(DataIos(off, init, n)) + [Write(off + |got|, piece)];
      assert ws[..|ws| - 1] == Writes(DataIos(off, init, n));
      PutTwice(d, off, got, piece);
    }
  }

  // ------------------------------------------------------------- one record

  /** The blocks of request `j` as they read now. */
  function BlocksAt(c: Config, dev: seq<Block>, e: Logged): seq<Block>
    requires ValidImage(c.g, dev)
  {
    seq(e.pb, k requires 0 <= k => dev[Slot(c.g, e.lsid + k)])
  }

  ghost predicate RequestIntact(c: Config, dev: seq<Block>, e: Logged)
    requires ValidImage(c.g, dev)
  {
    Pieces(c.g, BlocksAt(c, dev, e), e.w.data)
  }

  /** The assumption on the checksum: data that is not the request's does not
      have the request's checksum. */
  ghost predicate RequestDetects(c: Config, dev: seq<Block>, e: Logged)
    requires ValidImage(c.g, dev)
  {
    var data := DataOf(BlocksAt(c, dev, e), |e.w.data|);
    ChecksumOf(Flatten(data), c.salt) == ChecksumOf(Flatten(e.w.data), c.salt) ==> data == e.w.data
  }

  /** Record `i` of the sealed pack finds its own blocks at the head of the list. */
  lemma RecordBlocks(c: Config, dev: seq<Block>, p: Pack, i: nat)
    requires ValidImage(c.g, dev) && PackOk(c.g, p) && i < |p.header.records|
    ensures SizeSum(c.g, p.header.records[..i]) + RecordPb(c.g, p.header.records[i])
              == SizeSum(c.g, p.header.records[..i + 1]) <= p.header.total
    ensures var s := SizeSum(c.g, p.header.records[..i]); var n := RecordPb(c.g, p.header.records[i]);
      var list := PackBlocks(c, dev, p.header.lsid, p.header.total);
      && list[s..][..n] == seq(n, k requires 0 <= k => dev[Slot(c.g, p.header.lsid + 1 + s + k)])
      && list[s..][n..] == list[s + n..]
  {
    var recs := p.header.records;
    SizeSumStep(c.g, recs, i);
    SizeSumMono(c.g, recs, i + 1, |recs|);
    assert recs[..|recs|] == recs;
  }

  /** The list of blocks in front of record `i`. */
  function LeftAt(c: Config, dev: seq<Block>, p: Pack, i: nat): seq<Block>
    requires ValidImage(c.g, dev) && i <= |p.header.records|
  {
    var list, s := PackBlocks(c, dev, p.header.lsid, p.header.total), SizeSum(c.g, p.header.records[..i]);
    if s <= |list| then list[s..] else []
  }

  lemma PaddingSkipped(c: Config, dev: seq<Block>, p: Pack, i: nat)
    requires ValidImage(c.g, dev) && PackOk(c.g, p) && i < |p.header.records| && p.header.records[i].padding
    ensures RedoRecord(c, SealedRecord(p, c.salt, i), LeftAt(c, dev, p, i))
         == RecordOut(true, [], LeftAt(c, dev, p, i + 1))
  {
    RecordBlocks(c, dev, p, i);
    assert RecordLaidOut(c.g, p.header, i);
  }

  /** The sealed record of a request says where its blocks are, how long it is
      and what its checksum is. */
  lemma SealedRequest(g: Geometry, salt: u32, p: Pack, i: nat)
    requires PackOk(g, p) && NoDiscards(p) && i < |p.header.records| && !p.header.records[i].padding
    ensures |NonPadding(p.header.records[..i])| < |LoggedOf(g, p)|
    ensures var e, r := LoggedOf(g, p)[|NonPadding(p.header.records[..i])|], SealedRecord(p, salt, i);
      && !r.padding && !r.discard && r.offset == e.w.pos && 0 < r.ioSize == |e.w.data|
      && r.checksum == ChecksumOf(Flatten(e.w.data), salt)
      && e.lsid == p.header.lsid + 1 + SizeSum(g, p.header.records[..i])
      && e.pb == CapacityPb(g.nLb, r.ioSize) == RecordPb(g, p.header.records[i])
  {
    hide Layout, OnePadding;
    var recs, j := p.header.records, |NonPadding(p.header.records[..i])|;
    CountStep(recs, i);
    CountMono(recs, i + 1, |recs|);
    assert recs[..|recs|] == recs;
    var k := PlaceOf(g, p, j);
    SameRequestSameRecord(recs, i, k);
    assert ValidBio(p.bios[j]);
  }

  /** A request's record takes exactly the request's own blocks, is good when its
      checksum matches, and then yields writes of what was read. */
  lemma RequestTaken(c: Config, dev: seq<Block>, p: Pack, i: nat)
    requires ValidImage(c.g, dev) && PackOk(c.g, p) && NoDiscards(p)
    requires i < |p.header.records| && !p.header.records[i].padding
    ensures |NonPadding(p.header.records[..i])| < |LoggedOf(c.g, p)|
    ensures var e := LoggedOf(c.g, p)[|NonPadding(p.header.records[..i])|];
      var data := DataOf(BlocksAt(c, dev, e), |e.w.data|);
      RedoRecord(c, SealedRecord(p, c.salt, i), LeftAt(c, dev, p, i))
        == if ChecksumOf(Flatten(data), c.salt) == ChecksumOf(Flatten(e.w.data), c.salt)
           then RecordOut(true, DataIos(e.w.pos, BlocksAt(c, dev, e), |e.w.data|), LeftAt(c, dev, p, i + 1))
           else RecordOut(false, [], LeftAt(c, dev, p, i))
  {
    SealedRequest(c.g, c.salt, p, i);
    var e := LoggedOf(c.g, p)[|NonPadding(p.header.records[..i])|];
    RecordBlocks(c, dev, p, i);
    hide PackOk, ValidImage, LoggedOf, SealedRecord, PackBlocks, SizeSum, RecordPb, DataOf, DataIos, Flatten, ChecksumOf, CapacityPb;
    var left := LeftAt(c, dev, p, i);
    assert |left| >= e.pb && left[..e.pb] == BlocksAt(c, dev, e) && left[e.pb..] == LeftAt(c, dev, p, i + 1);
  }

  lemma SameRequestSameRecord(recs: seq<Record>, i: nat, k: nat)
    requires i < |recs| && k < |recs| && !recs[i].padding && !recs[k].padding
    requires |NonPadding(recs[..i])| == |NonPadding(recs[..k])|
    ensures i == k
  {
    CountStep(recs, i);
    CountStep(recs, k);
    if i < k {
      CountMono(recs, i + 1, k);
    } else if k < i {
      CountMono(recs, k + 1, i);
    }
  }

  // --------------------------------------------------------------- one pack

  ghost predicate PackDetects(c: Config, dev: seq<Block>, p: Pack)
    requires ValidImage(c.g, dev)
  {
    forall j | 0 <= j < |LoggedOf(c.g, p)| :: RequestDetects(c, dev, LoggedOf(c.g, p)[j])
  }

  /** What replay from record `i` on is to give. */
  ghost predicate Replayed(c: Config, dev: seq<Block>, p: Pack, i: nat, d: Image, r: Replay)
    requires ValidImage(c.g, dev)
  {
    var recs, ls := p.header.records, LoggedOf(c.g, p);
    i <= r.good <= |recs|
    && var from, to := |NonPadding(recs[..i])|, |NonPadding(recs[..r.good])|;
      && from <= to <= |ls|
      && Apply(d, Writes(r.ios)) == Apply(d, WritesOf(ls)[from..to])
      && (r.good < |recs| ==> !recs[r.good].padding && to < |ls| && !RequestIntact(c, dev, ls[to]))
  }

  lemma ReplayEnds(c: Config, dev: seq<Block>, p: Pack, i: nat, d: Image)
    requires ValidImage(c.g, dev) && i <= |p.header.records| && |NonPadding(p.header.records[..i])| <= |LoggedOf(c.g, p)|
    requires i < |p.header.records| ==>
               && !p.header.records[i].padding && |NonPadding(p.header.records[..i])| < |LoggedOf(c.g, p)|
               && !RequestIntact(c, dev, LoggedOf(c.g, p)[|NonPadding(p.header.records[..i])|])
    ensures Replayed(c, dev, p, i, d, Replay([], i))
  {
  }

  lemma ReplayPads(c: Config, dev: seq<Block>, p: Pack, i: nat, d: Image, rest: Replay)
    requires ValidImage(c.g, dev) && i < |p.header.records| && p.header.records[i].padding
    requires Replayed(c, dev, p, i + 1, d, rest)
    ensures Replayed(c, dev, p, i, d, Before([], rest))
  {
    CountStep(p.header.records, i);
    assert [] + rest.ios == rest.ios;
  }

  lemma ReplayWrites(c: Config, dev: seq<Block>, p: Pack, i: nat, d: Image, first: seq<Io>, rest: Replay)
    requires ValidImage(c.g, dev) && i < |p.header.records| && !p.header.records[i].padding
    requires var j := |NonPadding(p.header.records[..i])|;
      j < |LoggedOf(c.g, p)| && Apply(d, Writes(first)) == Put(d, LoggedOf(c.g, p)[j].w)
      && Replayed(c, dev, p, i + 1, Put(d, LoggedOf(c.g, p)[j].w), rest)
    ensures Replayed(c, dev, p, i, d, Before(first, rest))
  {
    CountStep(p.header.records, i);
    StepThenRest(d, first, rest.ios, WritesOf(LoggedOf(c.g, p)), |NonPadding(p.header.records[..i])|,
                 |NonPadding(p.header.records[..rest.good])|);
  }

  /** Replay of a sealed pack from record `i` on: the good records yield exactly
      the writes of their requests, and only a damaged request ends it. */
  lemma {:induction false} RecordsReplayed(c: Config, dev: seq<Block>, p: Pack, i: nat, d: Image)
    requires ValidImage(c.g, dev) && PackOk(c.g, p) && NoDiscards(p) && i <= |p.header.records|
    requires PackDetects(c, dev, p) && AllFit(WritesOf(LoggedOf(c.g, p)), |d|)
    ensures Replayed(c, dev, p, i, d, RedoRecords(c, SealPack(c.g, c.salt, p).records, i, LeftAt(c, dev, p, i)))
    decreases |p.header.records| - i
  {
    hide PackOk, PackDetects, ValidImage, Replayed, RedoRecord, LeftAt, LoggedOf, NonPadding, RequestIntact, NoDiscards, AllFit;
    var recs := p.header.records;
    CountsFit(c.g, p, i);
    if i == |recs| {
      ReplayEnds(c, dev, p, i, d);
    } else if recs[i].padding {
      PaddingSkipped(c, dev, p, i);
      RecordsReplayed(c, dev, p, i + 1, d);
      ReplayPads(c, dev, p, i, d, RedoRecords(c, SealPack(c.g, c.salt, p).records, i + 1, LeftAt(c, dev, p, i + 1)));
    } else {
      RequestTaken(c, dev, p, i);
      var j := |NonPadding(recs[..i])|;
      RequestStep(c, dev, p, j, d);
      var o := RedoRecord(c, SealedRecord(p, c.salt, i), LeftAt(c, dev, p, i));
      if o.ok {
        var d2 := Put(d, LoggedOf(c.g, p)[j].w);
        RecordsReplayed(c, dev, p, i + 1, d2);
        ReplayWrites(c, dev, p, i, d, o.ios, RedoRecords(c, SealPack(c.g, c.salt, p).records, i + 1, LeftAt(c, dev, p, i + 1)));
      } else {
        ReplayEnds(c, dev, p, i, d);
      }
    }
  }

  lemma CountsFit(g: Geometry, p: Pack, i: nat)
    requires PackOk(g, p) && i <= |p.header.records|
    ensures |NonPadding(p.header.records[..i])| <= |LoggedOf(g, p)| && |p.header.records| <= MaxRecords(g.nLb)
  {
    hide OnePadding;
    CountMono(p.header.records, i, |p.header.records|);
    assert p.header.records[..|p.header.records|] == p.header.records;
  }

  lemma RequestStep(c: Config, dev: seq<Block>, p: Pack, j: nat, d: Image)
    requires ValidImage(c.g, dev) && PackOk(c.g, p) && NoDiscards(p) && j < |LoggedOf(c.g, p)|
    requires PackDetects(c, dev, p) && AllFit(WritesOf(LoggedOf(c.g, p)), |d|)
    ensures var e := LoggedOf(c.g, p)[j]; var blocks := BlocksAt(c, dev, e);
      var same := ChecksumOf(Flatten(DataOf(blocks, |e.w.data|)), c.salt) == ChecksumOf(Flatten(e.w.data), c.salt);
      && (same ==> Apply(d, Writes(DataIos(e.w.pos, blocks, |e.w.data|))) == Put(d, e.w))
      && (RequestIntact(c, dev, e) ==> same)
      && AllFit(WritesOf(LoggedOf(c.g, p)), |Put(d, e.w)|)
  {
    var e := LoggedOf(c.g, p)[j];
    var blocks := BlocksAt(c, dev, e);
    assert RequestDetects(c, dev, e);
    assert Fits(WritesOf(LoggedOf(c.g, p))[j], |d|);
    DataIosApply(d, e.w.pos, blocks, |e.w.data|);
    if RequestIntact(c, dev, e) {
      BlockCount(c.g, p, j);
      IntactData(c.g, blocks, e.w.data);
    }
  }

  lemma BlockCount(g: Geometry, p: Pack, j: nat)
    requires PackOk(g, p) && NoDiscards(p) && j < |LoggedOf(g, p)|
    ensures LoggedOf(g, p)[j].pb == CapacityPb(g.nLb, |LoggedOf(g, p)[j].w.data|) && j < |p.bios|
  {
    hide Layout, OnePadding;
    var i := PlaceOf(g, p, j);
    assert ValidBio(p.bios[j]);
  }

  lemma ApplyFrom(d: Image, ws: seq<Write>, j: nat, to: nat)
    requires j < to <= |ws|
    ensures Apply(d, ws[j..to]) == Apply(Put(d, ws[j]), ws[j + 1..to])
  {
    ApplyConcat(d, [ws[j]], ws[j + 1..to]);
    ApplyOne(d, ws[j]);
    assert ws[j..to] == [ws[j]] + ws[j + 1..to];
  }

  /** The writes of one request, then those of the rest. */
  lemma StepThenRest(d: Image, first: seq<Io>, rest: seq<Io>, ws: seq<Write>, j: nat, to: nat)
    requires j < to <= |ws| && Apply(d, Writes(first)) == Put(d, ws[j])
    requires Apply(Put(d, ws[j]), Writes(rest)) == Apply(Put(d, ws[j]), ws[j + 1..to])
    ensures Apply(d, Writes(first + rest)) == Apply(d, ws[j..to])
  {
    hide Apply, Put, Writes;
    WritesConcat(first, rest);
    ApplyConcat(d, Writes(first), Writes(rest));
    ApplyFrom(d, ws, j, to);
  }
}
