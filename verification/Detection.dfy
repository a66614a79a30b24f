/** Which damage replay sees: the tests of module/redo.c on a header block and on the
    data of a request, in terms of the words on the log device. */
module Detection {
  import opened Words
  import opened Checksum
  import opened LogRecord
  import opened Logpack
  import opened WritePack
  import opened Disk
  import opened LogDevice
  import opened Redo
  import opened RoundTrip
  import opened Recovery

  // ---------------------------------------------------------------- headers

  /** The fields of a header block as they stand in its words. */
  function TypeWord(ws: seq<u32>): nat requires |ws| >= 6 { ws[1] % U16_SIZE }
  function TotalWord(ws: seq<u32>): nat requires |ws| >= 6 { ws[1] / U16_SIZE }
  function LsidWords(ws: seq<u32>): nat requires |ws| >= 6 { ws[2] + ws[3] * U32_SIZE }
  function CountWord(ws: seq<u32>): nat requires |ws| >= 6 { ws[4] % U16_SIZE }
  function PaddingWord(ws: seq<u32>): nat requires |ws| >= 6 { ws[4] / U16_SIZE }

  /** A header block that replay takes. Without records it must be empty, and then its
      checksum is not looked at; with records all its words and the salt must add up
      to 0 modulo 2^32, and its pack must end inside the 64-bit lsids. */
  predicate TakenAsHeader(nLb: nat, salt: u32, ws: seq<u32>)
    requires 1 <= nLb <= 8 && |ws| == nLb * SECTOR_WORDS
  {
    && TypeWord(ws) == SECTOR_TYPE_LOGPACK
    && if CountWord(ws) == 0 then TotalWord(ws) == 0 && PaddingWord(ws) == 0
       else (salt + Total(ws)) % U32_SIZE == 0 && PaddingWord(ws) <= 1 && LsidWords(ws) + 1 + TotalWord(ws) < U64_SIZE
  }

  lemma EndInside(lsid: u64, total: u16)
    ensures lsid < (lsid + 1 + total) % U64_SIZE <==> lsid + 1 + total < U64_SIZE
  {
    if lsid + 1 + total >= U64_SIZE {
      assert (lsid + 1 + total) % U64_SIZE == lsid + 1 + total - U64_SIZE;
    }
  }

  lemma ZeroChecksum(ws: seq<u32>, salt: u32)
    ensures ChecksumOf(ws, salt) == 0 <==> (salt + Total(ws)) % U32_SIZE == 0
  {
    ChecksumLaw(ws, salt);
    Negated(ChecksumOf(ws, salt), salt + Total(ws));
  }

  lemma Negated(a: u32, n: nat)
    requires (a + n) % U32_SIZE == 0
    ensures a == 0 <==> n % U32_SIZE == 0
  {
  }

  /** The validity test of a header, word by word. */
  lemma ValidExactly(nLb: nat, salt: u32, ws: seq<u32>)
    requires 1 <= nLb <= 8 && |ws| == nLb * SECTOR_WORDS
    ensures ValidBlock(nLb, salt, ws) <==> TakenAsHeader(nLb, salt, ws)
  {
    var h := Decode(nLb, ws);
    assert |h.records| == Min(CountWord(ws), MaxRecords(nLb));
    ZeroChecksum(ws, salt);
    EndInside(h.lsid, h.total);
    hide ChecksumOf, Total;
  }

  /** Replay takes a block for the header of `lsid` exactly if its words say so. */
  lemma AcceptsExactly(c: Config, dev: seq<Block>, lsid: nat)
    requires ValidImage(c.g, dev)
    ensures var ws := BlockWords(c.g, dev[Slot(c.g, lsid)]);
      Accepts(c, dev, lsid) <==> TakenAsHeader(c.g.nLb, c.salt, ws) && LsidWords(ws) == lsid
  {
    var ws := BlockWords(c.g, dev[Slot(c.g, lsid)]);
    ValidExactly(c.g.nLb, c.salt, ws);
    hide ValidBlock, TakenAsHeader;
  }

  lemma OneWordTotal(ws: seq<u32>, i: nat, v: u32, salt: u32)
    requires i < |ws| && v != ws[i] && (salt + Total(ws)) % U32_SIZE == 0
    ensures (salt + Total(ws[i := v])) % U32_SIZE != 0
  {
    ZeroChecksum(ws, salt);
    ZeroChecksum(ws[i := v], salt);
    OneWordChanged(ws, i, v, salt);
    hide ChecksumOf, Total;
  }

  /** A taken header of which one word changes is not taken any more, unless it turns
      into the header of an empty pack. */
  lemma OneWordRejected(nLb: nat, salt: u32, ws: seq<u32>, i: nat, v: u32)
    requires 1 <= nLb <= 8 && |ws| == nLb * SECTOR_WORDS && i < |ws| && v != ws[i]
    requires TakenAsHeader(nLb, salt, ws) && CountWord(ws) != 0
    ensures TakenAsHeader(nLb, salt, ws[i := v]) <==> i == 4 && v == 0 && TotalWord(ws) == 0
  {
    OneWordTotal(ws, i, v, salt);
    hide Total;
    var ws2 := ws[i := v];
    if CountWord(ws2) == 0 && PaddingWord(ws2) == 0 {
      assert ws2[4] == 0;
    }
  }

  lemma SealedWords(g: Geometry, salt: u32, p: Pack)
    requires PackOk(g, p) && NoDiscards(p) && p.header.records != []
    ensures |p.header.records| <= MaxRecords(g.nLb)
    ensures var ws := BlockWords(g, HeaderBlock(g, SealPack(g, salt, p)));
      TakenAsHeader(g.nLb, salt, ws) && CountWord(ws) != 0 && TotalWord(ws) > 0
  {
    SealedValid(g, salt, p);
    var s := SealPack(g, salt, p);
    var ws := Encode(g.nLb, s);
    FlattenChop(ws, g.nLb);
    ValidExactly(g.nLb, salt, ws);
    FirstTakesRoom(g, p, |p.header.records|);
    assert p.header.records[..|p.header.records|] == p.header.records;
    SealedCounts(g, p, s);
    hide ValidBlock, TakenAsHeader, SealPack, PackOk;
  }

  lemma SealedCounts(g: Geometry, p: Pack, s: Header)
    requires PackOk(g, p) && p.header.records != [] && |s.records| == |p.header.records| <= MaxRecords(g.nLb)
    requires s.total == p.header.total && SizeSum(g, p.header.records) > 0
    ensures var ws := Encode(g.nLb, s); CountWord(ws) != 0 && TotalWord(ws) > 0
  {
    EncodedFields(g.nLb, s);
    SplitWord(s.sectorType, s.total, U16_SIZE);
    SplitWord(|s.records|, s.nPadding, U16_SIZE);
  }

  /** Damage of one word in the header of any pack is seen: replay then takes the block
      for no header at all. */
  lemma DamagedHeaderSeen(c: Config, dev: seq<Block>, p: Pack, i: nat, v: u32, lsid: nat)
    requires ValidImage(c.g, dev) && PackOk(c.g, p) && NoDiscards(p) && p.header.records != []
    requires |p.header.records| <= MaxRecords(c.g.nLb) && i < c.g.nLb * SECTOR_WORDS
    requires var ws := BlockWords(c.g, HeaderBlock(c.g, SealPack(c.g, c.salt, p)));
      v != ws[i] && BlockWords(c.g, dev[Slot(c.g, lsid)]) == ws[i := v]
    ensures !Accepts(c, dev, lsid)
  {
    SealedWords(c.g, c.salt, p);
    var ws := BlockWords(c.g, HeaderBlock(c.g, SealPack(c.g, c.salt, p)));
    AcceptsExactly(c, dev, lsid);
    hide Accepts, TakenAsHeader, PackOk, HeaderBlock, SealPack;
    OneWordRejected(c.g.nLb, c.salt, ws, i, v);
  }

  // ------------------------------------------------------------------- data

  /** The assumption on the checksum of a request, made exact: what stands in its
      place is the request's data, or its words have another sum modulo 2^32. */
  lemma DetectsExactly(c: Config, dev: seq<Block>, e: Logged)
    requires ValidImage(c.g, dev)
    ensures var data := DataOf(BlocksAt(c, dev, e), |e.w.data|);
      RequestDetects(c, dev, e) <==>
        data == e.w.data || Total(Flatten(data)) % U32_SIZE != Total(Flatten(e.w.data)) % U32_SIZE
  {
    var data := DataOf(BlocksAt(c, dev, e), |e.w.data|);
    TellsApart(Flatten(data), Flatten(e.w.data), c.salt);
    hide ChecksumOf, Total, DataOf, Flatten, BlocksAt;
  }

  lemma {:induction false} FlattenPatch(b: seq<Sector>, n: nat, x: Sector)
    requires n < |b|
    ensures Total(Flatten(b[n := x])) + Total(b[n]) == Total(Flatten(b)) + Total(x)
    decreases |b|
  {
    var m := |b| - 1;
    TotalConcat(Flatten(b[..m]), b[m]);
    TotalConcat(Flatten(b[n := x][..m]), b[n := x][m]);
    hide Total;
    if n == m {
      assert b[n := x][..m] == b[..m];
    } else {
      assert b[n := x][..m] == b[..m][n := x];
      FlattenPatch(b[..m], n, x);
    }
  }

  lemma {:induction false} TotalConcat(a: seq<u32>, b: seq<u32>)
    ensures Total(a + b) == Total(a) + Total(b)
    decreases |b|
  {
    if b == [] {
      assert a + b == a;
    } else {
      var ab := a + b;
      assert ab[..|ab| - 1] == a + b[..|b| - 1];
      TotalConcat(a, b[..|b| - 1]);
    }
  }

  /** Damage of one word in the data of a request is seen: its record does not replay
      and nothing of it is written. */
  lemma DamagedDataSeen(c: Config, dev: seq<Block>, p: Pack, i: nat, n: nat, k: nat, v: u32)
    requires ValidImage(c.g, dev) && PackOk(c.g, p) && NoDiscards(p)
    requires i < |p.header.records| && !p.header.records[i].padding && |NonPadding(p.header.records[..i])| < |LoggedOf(c.g, p)|
    requires var e := LoggedOf(c.g, p)[|NonPadding(p.header.records[..i])|];
      && n < |e.w.data| && k < SECTOR_WORDS && v != e.w.data[n][k]
      && DataOf(BlocksAt(c, dev, e), |e.w.data|) == e.w.data[n := e.w.data[n][k := v]]
    ensures RedoRecord(c, SealedRecord(p, c.salt, i), LeftAt(c, dev, p, i)) == RecordOut(false, [], LeftAt(c, dev, p, i))
  {
    RequestTaken(c, dev, p, i);
    var e := LoggedOf(c.g, p)[|NonPadding(p.header.records[..i])|];
    OneWordOfData(e.w.data, n, k, v, c.salt);
    hide RedoRecord, SealedRecord, LeftAt, PackOk, NoDiscards, NonPadding, LoggedOf, DataOf, BlocksAt, ChecksumOf, Flatten;
  }

  lemma OneWordOfData(data: seq<Sector>, n: nat, k: nat, v: u32, salt: u32)
    requires n < |data| && k < SECTOR_WORDS && v != data[n][k]
    ensures ChecksumOf(Flatten(data[n := data[n][k := v]]), salt) != ChecksumOf(Flatten(data), salt)
  {
    var data2 := data[n := data[n][k := v]];
    TellsApart(Flatten(data2), Flatten(data), salt);
    FlattenPatch(data, n, data[n][k := v]);
    TotalPatch(data[n], k, v);
    hide ChecksumOf, Total, Flatten;
    if Total(Flatten(data2)) % U32_SIZE == Total(Flatten(data)) % U32_SIZE {
      SmallDifference(Total(Flatten(data2)), Total(Flatten(data)), data[n][k], v);
    }
  }

  /** What sealing puts into the records: the checksum of a request's data, with which
      it and the salt add up to 0 modulo 2^32; 0 for a discard; nothing else changes. */
  lemma SealedAddsUp(g: Geometry, salt: u32, p: Pack, i: nat)
    requires PackOk(g, p) && i < |p.header.records|
    ensures |p.header.records| <= MaxRecords(g.nLb)
    ensures var was, r, j := p.header.records[i], SealPack(g, salt, p).records[i], |NonPadding(p.header.records[..i])|;
      if was.padding then r == was
      else
        && r == was.(checksum := r.checksum) && j < |p.bios|
        && if p.bios[j].discard then r.checksum == 0
           else (r.checksum + salt + Total(Flatten(p.bios[j].data))) % U32_SIZE == 0
  {
    CountsFit(g, p, i);
    var j := |NonPadding(p.header.records[..i])|;
    if !p.header.records[i].padding {
      RequestOf(g, p, i);
      ChecksumLaw(Flatten(p.bios[j].data), salt);
    }
    hide PackOk, ChecksumOf, Total, Flatten, NonPadding, LoggedOf;
  }

  lemma RequestOf(g: Geometry, p: Pack, i: nat)
    requires PackOk(g, p) && i < |p.header.records| && !p.header.records[i].padding
    ensures |NonPadding(p.header.records[..i])| < |p.bios| && p.bios[|NonPadding(p.header.records[..i])|].len > 0
  {
    var recs := p.header.records;
    CountStep(recs, i);
    CountMono(recs, i + 1, |recs|);
    assert recs[..|recs|] == recs;
    hide Layout, OnePadding, Describes;
  }
}
