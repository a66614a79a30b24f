/** Replaying the log after a crash: module/redo.c. */
module Redo {
  import opened Words
  import opened Checksum
  import opened LogRecord
  import opened Logpack
  import opened WritePack
  import opened Disk
  import opened LogDevice

  /** `discards`: whether the data device supports discard requests. */
  datatype Config = Config(g: Geometry, salt: u32, discards: bool)

  datatype Io = DataIo(w: Write) | DiscardIo(pos: nat, len: nat)

  // ------------------------------------------------------- the specification

  /** The first `n` sectors of the blocks. */
  function DataOf(blocks: seq<Block>, n: nat): (d: seq<Sector>)
    ensures |d| <= n
    decreases |blocks|
  {
    if blocks == [] then []
    else
      var d, b := DataOf(blocks[..|blocks| - 1], n), blocks[|blocks| - 1];
      d + b[..Min(|b|, n - |d|)]
  }

  /** create_data_io_for_redo: one write per block. */
  function DataIos(off: nat, blocks: seq<Block>, n: nat): seq<Io>
    decreases |blocks|
  {
    if blocks == [] then []
    else
      var d, b := |DataOf(blocks[..|blocks| - 1], n)|, blocks[|blocks| - 1];
      DataIos(off, blocks[..|blocks| - 1], n) + [DataIo(Write(off + d, b[..Min(|b|, n - d)]))]
  }

  /** What the records from `i` on yield: the data writes, and the index of the
      first record whose data does not match its checksum. */
  datatype Replay = Replay(ios: seq<Io>, good: nat)

  function Before(ios: seq<Io>, r: Replay): Replay {
    r.(ios := ios + r.ios)
  }

  function DiscardIos(c: Config, r: Record): seq<Io> {
    if c.discards then [DiscardIo(r.offset, r.ioSize / 512)] else []
  }

  /** One record: whether it is good, its writes, and the blocks left behind it. */
  datatype RecordOut = RecordOut(ok: bool, ios: seq<Io>, rest: seq<Block>)

  function RedoRecord(c: Config, r: Record, blocks: seq<Block>): RecordOut {
    if r.ioSize == 0 then RecordOut(true, [], blocks)
    else if r.discard then RecordOut(true, DiscardIos(c, r), blocks)
    else
      var n := Min(CapacityPb(c.g.nLb, r.ioSize), |blocks|);
      if r.padding then RecordOut(true, [], blocks[n..])
      else if ChecksumOf(Flatten(DataOf(blocks[..n], r.ioSize)), c.salt) != r.checksum then
        RecordOut(false, [], blocks)
      else RecordOut(true, DataIos(r.offset, blocks[..n], r.ioSize), blocks[n..])
  }

  function RedoRecords(c: Config, recs: seq<Record>, i: nat, blocks: seq<Block>): (r: Replay)
    requires i <= |recs|
    ensures i <= r.good <= |recs|
    decreases |recs| - i
  {
    if i == |recs| then Replay([], i)
    else
      var o := RedoRecord(c, recs[i], blocks);
      if !o.ok then Replay([], i) else Before(o.ios, RedoRecords(c, recs, i + 1, o.rest))
  }

  /** The header at `lsid`, as it reads now. */
  function HeaderAt(c: Config, dev: seq<Block>, lsid: nat): Header
    requires ValidImage(c.g, dev)
  {
    Decode(c.g.nLb, BlockWords(c.g, dev[Slot(c.g, lsid)]))
  }

  /** get_logpack_header_for_redo: is there a valid header of this very lsid? */
  predicate Accepts(c: Config, dev: seq<Block>, lsid: nat)
    requires ValidImage(c.g, dev)
  {
    ValidBlock(c.g.nLb, c.salt, BlockWords(c.g, dev[Slot(c.g, lsid)])) && HeaderAt(c, dev, lsid).lsid == lsid
  }

  /** The blocks behind the header. */
  function PackBlocks(c: Config, dev: seq<Block>, lsid: nat, total: nat): seq<Block>
    requires ValidImage(c.g, dev)
  {
    seq(total, k requires 0 <= k => dev[Slot(c.g, lsid + 1 + k)])
  }

  /** The header cut down to its first `n` records. */
  function Truncated(c: Config, h: Header, n: nat): Header
    requires n <= |h.records|
  {
    h.(records := h.records[..n], total := SizeSum(c.g, h.records[..n]) % U16_SIZE,
       nPadding := CountPadding(h.records[..n]) % U16_SIZE)
  }

  datatype Outcome = Outcome(ios: seq<Io>, next: nat, stop: bool, dev: seq<Block>)

  /** redo_logpack: a pack is valid, worthless, or valid up to a record; in the
      last case its header is rewritten to end there. */
  function RedoPack(c: Config, dev: seq<Block>, h: Header): (o: Outcome)
    requires ValidImage(c.g, dev) && |h.records| <= MaxRecords(c.g.nLb)
    ensures ValidImage(c.g, o.dev) && (!o.stop ==> o.dev == dev && o.next == h.lsid + 1 + h.total)
  {
    var r := RedoRecords(c, h.records, 0, PackBlocks(c, dev, h.lsid, h.total));
    if r.good == |h.records| then Outcome(r.ios, h.lsid + 1 + h.total, false, dev)
    else if r.good == 0 then Outcome(r.ios, h.lsid, true, dev)
    else
      var t := Truncated(c, h, r.good);
      Outcome(r.ios, h.lsid + 1 + t.total, true,
              dev[Slot(c.g, h.lsid) := HeaderBlock(c.g, Sealed(c.g.nLb, c.salt, t))])
  }

  /** execute_redo: the data writes of the whole run, the lsid where it ends and
      the log device it leaves. The end of the lsid space stops it. */
  function RedoLog(c: Config, dev: seq<Block>, lsid: nat): (o: Outcome)
    requires ValidImage(c.g, dev)
    ensures ValidImage(c.g, o.dev)
    decreases U64_SIZE - lsid
  {
    if lsid >= MAX_LSID || !Accepts(c, dev, lsid) then Outcome([], lsid, true, dev)
    else
      var o := RedoPack(c, dev, HeaderAt(c, dev, lsid));
      if o.stop then o
      else
        var rest := RedoLog(c, dev, o.next);
        rest.(ios := o.ios + rest.ios)
  }

  // ----------------------------------------------------------------- the code

  /** calc_checksum_for_redo: block by block, the last one only as far as the
      request goes. */
  method CalcChecksumForRedo(c: Config, size: nat, blocks: seq<Block>) returns (csum: u32)
    ensures csum == ChecksumOf(Flatten(DataOf(blocks, size)), c.salt)
  {
    var sum, left := c.salt, size;
    for k := 0 to |blocks|
      invariant left == size - |DataOf(blocks[..k], size)|
      invariant sum == SumWords(c.salt, Flatten(DataOf(blocks[..k], size)))
    {
      var piece := blocks[k][..Min(|blocks[k]|, left)];
      assert blocks[..k + 1][..k] == blocks[..k];
      FlattenConcat(DataOf(blocks[..k], size), piece);
      SumConcat(c.salt, Flatten(DataOf(blocks[..k], size)), Flatten(piece));
      FlattenParts(piece);
      sum := SumSectors(sum, piece);
      left := left - |piece|;
    }
    assert blocks[..|blocks|] == blocks;
    csum := Finish(sum);
  }

  lemma FlattenParts(piece: seq<Sector>)
    ensures piece != [] ==> Flatten(piece) == Flatten(piece[..|piece| - 1]) + piece[|piece| - 1]
  {
  }

  /** checksum_partial over consecutive sectors. */
  method SumSectors(start: u32, piece: seq<Sector>) returns (sum: u32)
    ensures sum == SumWords(start, Flatten(piece))
  {
    sum := start;
    for i := 0 to |piece|
      invariant sum == SumWords(start, Flatten(piece[..i]))
    {
      assert piece[..i + 1][..i] == piece[..i];
      SumConcat(start, Flatten(piece[..i]), piece[i]);
      sum := ChecksumPartial(sum, piece[i]);
    }
    assert piece[..|piece|] == piece;
  }

  method CreateDataIos(off: nat, blocks: seq<Block>, size: nat) returns (ios: seq<Io>)
    ensures ios == DataIos(off, blocks, size)
  {
    ios := [];
    var at, left := off, size;
    for k := 0 to |blocks|
      invariant ios == DataIos(off, blocks[..k], size)
      invariant at == off + |DataOf(blocks[..k], size)| && left == size - |DataOf(blocks[..k], size)|
    {
      assert blocks[..k + 1][..k] == blocks[..k];
      var len := Min(|blocks[k]|, left);
      ios := ios + [DataIo(Write(at, blocks[k][..len]))];
      at, left := at + len, left - len;
    }
    assert blocks[..|blocks|] == blocks;
  }

  /** One record: its blocks are taken off the list, checked, and turned into
      writes; padding is dropped. */
  method ReplayRecord(c: Config, r: Record, blocks: seq<Block>) returns (o: RecordOut)
    ensures o == RedoRecord(c, r, blocks)
  {
    if r.ioSize == 0 {
      return RecordOut(true, [], blocks);
    }
    if r.discard {
      return RecordOut(true, if c.discards then [DiscardIo(r.offset, r.ioSize / 512)] else [], blocks);
    }
    var n := Min(CapacityPb(c.g.nLb, r.ioSize), |blocks|);
    if r.padding {
      return RecordOut(true, [], blocks[n..]);
    }
    var csum := CalcChecksumForRedo(c, r.ioSize, blocks[..n]);
    if csum != r.checksum {
      return RecordOut(false, [], blocks);
    }
    var ios := CreateDataIos(r.offset, blocks[..n], r.ioSize);
    return RecordOut(true, ios, blocks[n..]);
  }

  /** The record loop of redo_logpack: it stops at the first bad checksum. */
  method ReplayRecords(c: Config, h: Header, blocks: seq<Block>) returns (ios: seq<Io>, good: nat)
    ensures Replay(ios, good) == RedoRecords(c, h.records, 0, blocks)
  {
    ios, good := [], 0;
    var left := blocks;
    while good < |h.records|
      invariant good <= |h.records|
      invariant Before(ios, RedoRecords(c, h.records, good, left)) == RedoRecords(c, h.records, 0, blocks)
    {
      var o := ReplayRecord(c, h.records[good], left);
      if !o.ok {
        return;
      }
      ghost var rest := RedoRecords(c, h.records, good + 1, o.rest);
      assert (ios + o.ios) + rest.ios == ios + (o.ios + rest.ios);
      ios, left, good := ios + o.ios, o.rest, good + 1;
    }
  }

  /** redo_logpack: the log device is rewritten only to cut a header short. */
  method RedoLogpack(c: Config, dev: array<Block>, h: Header) returns (ios: seq<Io>, next: nat, stop: bool)
    requires ValidImage(c.g, dev[..]) && |h.records| <= MaxRecords(c.g.nLb)
    modifies dev
    ensures ValidImage(c.g, dev[..]) && Outcome(ios, next, stop, dev[..]) == RedoPack(c, old(dev[..]), h)
  {
    var blocks: seq<Block> := [];
    for k := 0 to h.total
      invariant blocks == PackBlocks(c, dev[..], h.lsid, h.total)[..k]
    {
      blocks := blocks + [dev[Slot(c.g, h.lsid + 1 + k)]];
    }
    assert blocks == PackBlocks(c, dev[..], h.lsid, h.total);
    var good: nat;
    ios, good := ReplayRecords(c, h, blocks);
    if good == |h.records| {
      next, stop := h.lsid + 1 + h.total, false;
    } else if good == 0 {
      next, stop := h.lsid, true;
    } else {
      var total, nPadding := ShrinkTotals(c, h.records[..good]);
      var t := h.(records := h.records[..good], total := total, nPadding := nPadding);
      assert t == Truncated(c, h, good);
      dev[Slot(c.g, h.lsid)] := HeaderBlock(c.g, Sealed(c.g.nLb, c.salt, t));
      next, stop := h.lsid + 1 + t.total, true;
    }
  }

  /** The loop that recomputes total_io_size and n_padding in 16 bits. */
  method ShrinkTotals(c: Config, recs: seq<Record>) returns (total: u16, nPadding: u16)
    ensures total == SizeSum(c.g, recs) % U16_SIZE && nPadding == CountPadding(recs) % U16_SIZE
  {
    total, nPadding := 0, 0;
    for i := 0 to |recs|
      invariant total == SizeSum(c.g, recs[..i]) % U16_SIZE && nPadding == CountPadding(recs[..i]) % U16_SIZE
    {
      assert recs[..i + 1][..i] == recs[..i];
      AddThenCut(SizeSum(c.g, recs[..i]), RecordPb(c.g, recs[i]));
      AddThenCut(CountPadding(recs[..i]), 1);
      if !recs[i].discard {
        total := (total + CapacityPb(c.g.nLb, recs[i].ioSize)) % U16_SIZE;
      }
      if recs[i].padding {
        nPadding := (nPadding + 1) % U16_SIZE;
      }
    }
    assert recs[..|recs|] == recs;
  }

  lemma AddThenCut(a: nat, b: nat)
    ensures (a % U16_SIZE + b) % U16_SIZE == (a + b) % U16_SIZE
    ensures a % U16_SIZE % U16_SIZE == a % U16_SIZE
  {
  }

  /** execute_redo */
  method ExecuteRedo(c: Config, dev: array<Block>, start: nat) returns (ios: seq<Io>, lsid: nat)
    requires ValidImage(c.g, dev[..])
    modifies dev
    ensures ValidImage(c.g, dev[..])
    ensures var o := RedoLog(c, old(dev[..]), start); ios == o.ios && lsid == o.next && dev[..] == o.dev
  {
    ios, lsid := [], start;
    while lsid < MAX_LSID
      invariant ValidImage(c.g, dev[..])
      invariant var o, rest := RedoLog(c, old(dev[..]), start), RedoLog(c, dev[..], lsid);
        o == Outcome(ios + rest.ios, rest.next, rest.stop, rest.dev)
      decreases U64_SIZE - lsid
    {
      var words := ReadWords(c, dev, lsid);
      var h := Decode(c.g.nLb, words);
      if !(ValidBlock(c.g.nLb, c.salt, words) && h.lsid == lsid) {
        return;
      }
      ghost var was, done := RedoLog(c, dev[..], lsid), ios;
      var more, next, stop := RedoLogpack(c, dev, h);
      ios := ios + more;
      lsid := next;
      if stop {
        return;
      }
    }
  }

  method ReadWords(c: Config, dev: array<Block>, lsid: nat) returns (ws: seq<u32>)
    requires ValidImage(c.g, dev[..])
    ensures ws == BlockWords(c.g, dev[..][Slot(c.g, lsid)])
  {
    var b := dev[Slot(c.g, lsid)];
    ws := BlockWords(c.g, b);
  }
}
