/** Two places where a discard does not get through unharmed: its 16-bit place in the
    header of module/logpack.c, and its length in module/redo.c. */
module Edges {
  import opened Words
  import opened LogRecord
  import opened Logpack
  import opened WritePack
  import opened Disk
  import opened LogDevice
  import opened Redo

  // ------------------------------------------------ a local lsid that wraps

  lemma TwoRequests(g: Geometry, maxPb: nat, latest: u64, a: Bio, d: Bio)
    ensures PackAll(g, maxPb, latest, [a, d])
         == Close(AddToPacking(g, maxPb, StartPack(g, Packing([], None, latest, false), a), d))
  {
    assert [a, d][..1] == [a] && [a][..0] == [];
    hide AddToPacking, StartPack, Close;
    assert PackPrefix(g, maxPb, latest, []) == Packing([], None, latest, false);
    FirstStarts(g, maxPb, latest, a);
    assert PackPrefix(g, maxPb, latest, [a]) == AddToPacking(g, maxPb, PackPrefix(g, maxPb, latest, [a][..0]), a);
    assert PackPrefix(g, maxPb, latest, [a, d]) == AddToPacking(g, maxPb, PackPrefix(g, maxPb, latest, [a, d][..1]), d);
  }

  lemma FirstStarts(g: Geometry, maxPb: nat, latest: u64, a: Bio)
    ensures AddToPacking(g, maxPb, Packing([], None, latest, false), a) == StartPack(g, Packing([], None, latest, false), a)
  {
    hide StartPack;
  }

  lemma NoWrap(x: nat, m: nat)
    requires x < m
    ensures x % m == x
  {
  }

  /** A header that a request of 32768 blocks fills to its largest total, together
      with 32767 blocks of padding. */
  function Full(ring: nat, a: Bio): Header
    requires MAX_TOTAL_IO_SIZE <= ring < U32_SIZE
  {
    var lsid := ring - 32768;
    Header(0, SECTOR_TYPE_LOGPACK, MAX_TOTAL_IO_SIZE, lsid, 1,
           [Record(0, true, true, false, 0, 32767, 1, lsid + 1), Record(0, true, false, false, a.pos, a.len, 32768, lsid + 32768)])
  }

  lemma Filled(g: Geometry, a: Bio)
    requires g.nLb == 1 && MAX_TOTAL_IO_SIZE <= g.ring < U32_SIZE && !a.discard && a.len == 32768
    ensures AddBio(g, EmptyHeader(g.ring - 32768), a) == (Full(g.ring, a), true)
  {
    var e := EmptyHeader(g.ring - 32768);
    NoWrap(g.ring - 32767, g.ring);
    assert BioLsid(e) == g.ring - 32767 && PaddingPb(g, BioLsid(e)) == 32767;
    assert BioPb(g, a) == 32768 && CapacityLb(1, 32767) == 32767 && 2 < MaxRecords(1);
    var p := Pad(g, e, 32767);
    assert PaddingRecord(g, e, 32767) == Record(0, true, true, false, 0, 32767, 1, g.ring - 32767);
    assert p == Header(0, SECTOR_TYPE_LOGPACK, 32767, g.ring - 32768, 1, [PaddingRecord(g, e, 32767)]);
    assert BioRecord(p, a) == Record(0, true, false, false, a.pos, a.len, 32768, g.ring);
    assert p.records + [BioRecord(p, a)] == Full(g.ring, a).records;
    assert PlaceBio(g, p, a) == (Full(g.ring, a), true);
    hide PaddingPb, CapacityPb, MaxRecords, PlaceBio;
  }

  lemma DiscardAdded(g: Geometry, a: Bio, d: Bio)
    requires g.nLb == 1 && MAX_TOTAL_IO_SIZE <= g.ring < U32_SIZE && d.discard && d.len > 0
    ensures var (h, ok) := AddBio(g, Full(g.ring, a), d);
      ok && |h.records| == 3 && h.lsid == g.ring - 32768 && h.records[2].discard && h.records[2].lsidLocal == 0
      && h.records[2].lsid == h.lsid + U16_SIZE
  {
    assert 2 < MaxRecords(1);
    hide PaddingPb, CapacityPb, MaxRecords;
  }

  /** The wrap of Logpack.LsidLocalExact is reached by two requests, whatever
      max_logpack_pb is: a write that fills the header together with its padding, and
      a discard, which no size check keeps out. */
  lemma LsidLocalWraps(g: Geometry, maxPb: nat, a: Bio, d: Bio)
    requires g.nLb == 1 && MAX_TOTAL_IO_SIZE <= g.ring < U32_SIZE
    requires ValidBio(a) && !a.discard && a.len == 32768 && ValidBio(d) && d.discard && !d.flush
    ensures var st := PackAll(g, maxPb, g.ring - 32768, [a, d]);
      && |st.packs| == 1 && |st.packs[0].header.records| == 3
      && var r := st.packs[0].header.records[2];
         r.discard && r.lsidLocal == 0 && r.lsid - st.packs[0].header.lsid == U16_SIZE
  {
    TwoRequests(g, maxPb, g.ring - 32768, a, d);
    Filled(g, a);
    DiscardAdded(g, a, d);
    hide PackAll, AddBio;
  }

  // ------------------------------------------------- a discard that is replayed

  /** The discard that was logged. */
  function LoggedDiscard(c: Config, b: Bio): seq<Io> {
    if c.discards then [DiscardIo(b.pos, b.len)] else []
  }

  predicate Discards(io: Io, x: nat) {
    io.DiscardIo? && io.pos <= x < io.pos + io.len
  }

  /** A logged discard comes back from replay as it was made if and only if the data
      device takes no discards, so that none is made. Otherwise its last sector is
      never discarded, and none at all if it has fewer than 512. */
  lemma DiscardReplayed(c: Config, h: Header, b: Bio, blocks: seq<Block>)
    requires Layout(c.g, h) && ValidBio(b) && b.discard && AddBio(c.g, h, b).1
    ensures var recs := AddBio(c.g, h, b).0.records;
      recs != [] && var o := RedoRecord(c, recs[|recs| - 1], blocks);
      && o.ok && o.rest == blocks
      && (o.ios == LoggedDiscard(c, b) <==> !c.discards)
      && forall i, x: nat | 0 <= i < |o.ios| && Discards(o.ios[i], x) ::
           b.len >= 512 && b.pos <= x < b.pos + b.len - 1
  {
    AddBioAppends(c.g, h, b);
    hide Layout, DataOf, DataIos;
  }
}
