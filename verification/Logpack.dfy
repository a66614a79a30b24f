/** Building a logpack header: module/logpack.c, walb_logpack_header_add_bio. */
module Logpack {
  import opened Words
  import opened LogRecord

  /** A write request. `len` is its size in logical blocks; a discard carries
      no data. `stamp` is a ghost of the model: the lsid up to which writes had
      been acknowledged when the request was queued. */
  datatype Bio = Bio(
    pos: u64, len: u32, data: seq<Sector>,
    flush: bool, fua: bool, discard: bool, stamp: nat)

  /** What the block layer guarantees and the source asserts of a write. */
  ghost predicate ValidBio(b: Bio) {
    && (b.len == 0 ==> b.flush && !b.discard && !b.fua)
    && (if b.discard then b.data == [] else |b.data| == b.len && b.len <= MAX_NORMAL_IO_SECTORS)
  }

  function BioPb(g: Geometry, b: Bio): nat
  {
    CapacityPb(g.nLb, b.len)
  }

  /** Log blocks taken by a record: none for a discard. */
  function RecordPb(g: Geometry, r: Record): nat
  {
    if r.discard then 0 else CapacityPb(g.nLb, r.ioSize)
  }

  function SizeSum(g: Geometry, recs: seq<Record>): nat
    decreases |recs|
  {
    if recs == [] then 0 else SizeSum(g, recs[..|recs| - 1]) + RecordPb(g, recs[|recs| - 1])
  }

  function CountPadding(recs: seq<Record>): nat
    decreases |recs|
  {
    if recs == [] then 0
    else CountPadding(recs[..|recs| - 1]) + if recs[|recs| - 1].padding then 1 else 0
  }

  // ------------------------------------------------------- the specification

  /** The lsid the next record gets, in 64 bits. */
  function BioLsid(h: Header): u64 {
    Wrap64(h.lsid + 1 + h.total)
  }

  /** Blocks left before the ring end at `lsid`. */
  function PaddingPb(g: Geometry, lsid: nat): nat
    ensures 1 <= PaddingPb(g, lsid) <= g.ring
  {
    g.ring - lsid % g.ring
  }

  function PaddingRecord(g: Geometry, h: Header, pad: nat): Record
  {
    Record(0, true, true, false, 0, CapacityLb(g.nLb, pad) % U16_SIZE, Wrap16(1 + h.total), BioLsid(h))
  }

  function BioRecord(h: Header, b: Bio): Record
  {
    Record(0, true, false, b.discard, b.pos, b.len, Wrap16(1 + h.total), BioLsid(h))
  }

  /** The header with the padding record added. */
  function Pad(g: Geometry, h: Header, pad: nat): Header
    requires h.total + pad <= MAX_TOTAL_IO_SIZE
  {
    h.(records := h.records + [PaddingRecord(g, h, pad)], nPadding := Wrap16(h.nPadding + 1), total := h.total + pad)
  }

  /** The second half of add_bio: the size check and the record itself. */
  function PlaceBio(g: Geometry, h: Header, b: Bio): (Header, bool)
  {
    if !b.discard && h.total + BioPb(g, b) > MAX_TOTAL_IO_SIZE then (h, false)
    else (h.(records := h.records + [BioRecord(h, b)],
             total := if b.discard then h.total else h.total + BioPb(g, b)), true)
  }

  /** True when the data would cross the end of the ring buffer. */
  predicate Crosses(g: Geometry, h: Header, b: Bio)
  {
    !b.discard && PaddingPb(g, BioLsid(h)) < BioPb(g, b)
  }

  /** walb_logpack_header_add_bio on values: the new header and whether the
      request was accepted. A refusal may leave a padding record behind. */
  function AddBio(g: Geometry, h: Header, b: Bio): (Header, bool)
  {
    if |h.records| == MaxRecords(g.nLb) then (h, false)
    else if b.len == 0 then (h, true)
    else if Crosses(g, h, b) then
      var pad := PaddingPb(g, BioLsid(h));
      if h.total + pad > MAX_TOTAL_IO_SIZE then (h, false)
      else
        var p := Pad(g, h, pad);
        if |p.records| == MaxRecords(g.nLb) then (p, false) else PlaceBio(g, p, b)
    else PlaceBio(g, h, b)
  }

  function EmptyHeader(lsid: u64): Header {
    Header(0, SECTOR_TYPE_LOGPACK, 0, lsid, 0, [])
  }

  // ------------------------------------------------------- the layout promise

  /** Record `i` sits right behind the records before it and neither it nor the
      casts lose anything. */
  ghost predicate RecordLaidOut(g: Geometry, h: Header, i: nat)
    requires i < |h.records|
  {
    var r, off := h.records[i], 1 + SizeSum(g, h.records[..i]);
    && r.exist && r.ioSize > 0
    && r.lsid == h.lsid + off
    && off <= U16_SIZE && r.lsidLocal == Wrap16(off)
    && (!r.discard ==> off < U16_SIZE && r.ioSize <= MAX_NORMAL_IO_SECTORS)
    && (r.padding ==> !r.discard && (r.lsid + RecordPb(g, r)) % g.ring == 0)
    && (!r.padding && !r.discard && RecordPb(g, r) <= g.ring ==> r.lsid % g.ring + RecordPb(g, r) <= g.ring)
  }

  ghost predicate Layout(g: Geometry, h: Header)
  {
    && h.sectorType == SECTOR_TYPE_LOGPACK
    && h.lsid + 1 + MAX_TOTAL_IO_SIZE < U64_SIZE
    && |h.records| <= MaxRecords(g.nLb)
    && h.total == SizeSum(g, h.records)
    && h.nPadding == CountPadding(h.records)
    && forall i | 0 <= i < |h.records| :: RecordLaidOut(g, h, i)
  }

  lemma {:induction false} PaddingAtMostRecords(recs: seq<Record>)
    ensures CountPadding(recs) <= |recs|
    decreases |recs|
  {
    if recs != [] {
      PaddingAtMostRecords(recs[..|recs| - 1]);
    }
  }

  lemma LayoutAllowsAdd(g: Geometry, h: Header)
    requires Layout(g, h)
    ensures h.nPadding <= |h.records| <= MaxRecords(g.nLb)
  {
    PaddingAtMostRecords(h.records);
  }

  /** The place of record `i` depends only on the records up to it. */
  lemma SamePrefixSamePlace(g: Geometry, h: Header, h2: Header, i: nat)
    requires i < |h.records| && i < |h2.records| && h.lsid == h2.lsid
    requires h.records[..i] == h2.records[..i] && h.records[i] == h2.records[i]
    ensures RecordLaidOut(g, h, i) == RecordLaidOut(g, h2, i)
  {
  }

  lemma Extend(g: Geometry, h: Header, r: Record, n: nat, total: nat)
    requires Layout(g, h) && |h.records| < MaxRecords(g.nLb)
    requires total == h.total + RecordPb(g, r) <= MAX_TOTAL_IO_SIZE
    requires n == h.nPadding + (if r.padding then 1 else 0) < U16_SIZE
    requires RecordLaidOut(g, h.(records := h.records + [r]), |h.records|)
    ensures Layout(g, h.(records := h.records + [r], total := total, nPadding := n))
  {
    var h1 := h.(records := h.records + [r]);
    var h2 := h.(records := h.records + [r], total := total, nPadding := n);
    assert h2.records[..|h.records|] == h.records;
    forall i | 0 <= i < |h2.records| ensures RecordLaidOut(g, h2, i) {
      if i < |h.records| {
        assert h2.records[..i] == h.records[..i];
        SamePrefixSamePlace(g, h, h2, i);
      } else {
        SamePrefixSamePlace(g, h1, h2, i);
      }
    }
  }

  lemma ModSum(x: nat, m: nat)
    requires m > 0
    ensures (x + (m - x % m)) % m == 0
  {
    var q := x / m;
    assert x + (m - x % m) == q * m + m;
    MulAdd(q, 1, m);
    SplitWord(0, q + 1, m);
  }

  /** The padding record fills the log exactly to the ring end, and its size
      fits the 16-bit cast. */
  lemma PadLayout(g: Geometry, h: Header, b: Bio)
    requires Layout(g, h) && |h.records| < MaxRecords(g.nLb) && ValidBio(b)
    requires Crosses(g, h, b) && h.total + PaddingPb(g, h.lsid + 1 + h.total) <= MAX_TOTAL_IO_SIZE
    ensures var pad := PaddingPb(g, h.lsid + 1 + h.total);
            Layout(g, Pad(g, h, pad))
            && (h.lsid + 1 + Pad(g, h, pad).total) % g.ring == 0
  {
    LayoutAllowsAdd(g, h);
    var at := h.lsid + 1 + h.total;
    var pad := PaddingPb(g, at);
    var r := PaddingRecord(g, h, pad);
    ModSum(at, g.ring);
    FewerBlocksFewerSectors(g.nLb, b.len, pad);
    CapacityRoundTrip(g.nLb, pad);
    MulGrows(pad, g.nLb);
    assert r.ioSize == CapacityLb(g.nLb, pad) && RecordPb(g, r) == pad;
    assert (h.records + [r])[..|h.records|] == h.records;
    Extend(g, h, r, h.nPadding + 1, h.total + pad);
  }

  lemma PlaceLayout(g: Geometry, h: Header, b: Bio)
    requires Layout(g, h) && |h.records| < MaxRecords(g.nLb) && ValidBio(b) && b.len > 0
    requires b.discard || BioPb(g, b) <= PaddingPb(g, h.lsid + 1 + h.total)
             || (h.lsid + 1 + h.total) % g.ring == 0
    ensures Layout(g, PlaceBio(g, h, b).0)
  {
    LayoutAllowsAdd(g, h);
    if PlaceBio(g, h, b).1 {
      var r := BioRecord(h, b);
      CapacityPbTight(g.nLb, b.len);
      assert RecordPb(g, r) == if b.discard then 0 else BioPb(g, b);
      assert (h.records + [r])[..|h.records|] == h.records;
      Extend(g, h, r, h.nPadding, h.total + RecordPb(g, r));
    }
  }

  /** Whatever is added, in whatever order, the layout promise is kept: also by
      a refused request that leaves padding behind. */
  lemma AddBioKeepsLayout(g: Geometry, h: Header, b: Bio)
    requires Layout(g, h) && ValidBio(b)
    ensures Layout(g, AddBio(g, h, b).0)
  {
    LayoutAllowsAdd(g, h);
    if |h.records| < MaxRecords(g.nLb) && b.len > 0 {
      var pad := PaddingPb(g, h.lsid + 1 + h.total);
      if !Crosses(g, h, b) {
        PlaceLayout(g, h, b);
      } else if h.total + pad <= MAX_TOTAL_IO_SIZE {
        PadLayout(g, h, b);
        if |h.records| + 1 < MaxRecords(g.nLb) {
          PlaceLayout(g, Pad(g, h, pad), b);
        }
      }
    }
  }

  /** What an accepted request of non-zero size adds: at most one padding
      record, then its own record right behind everything before. */
  lemma AddBioAppends(g: Geometry, h: Header, b: Bio)
    requires Layout(g, h) && ValidBio(b) && b.len > 0
    ensures var (h2, ok) := AddBio(g, h, b);
      && h2.lsid == h.lsid
      && (ok ==> exists pads: seq<Record> ::
            && h2.records == h.records + pads + [BioRecord(h2.(total := h2.total - RecordPb(g, h2.records[|h2.records| - 1])), b)]
            && (pads == [] || (|pads| == 1 && pads[0].padding)))
      && (!ok ==> h2 == h || (|h2.records| == |h.records| + 1 && h2.records[..|h.records|] == h.records
                              && h2.records[|h.records|].padding))
  {
    LayoutAllowsAdd(g, h);
    var (h2, ok) := AddBio(g, h, b);
    CapacityPbTight(g.nLb, b.len);
    if ok {
      if Crosses(g, h, b) {
        var p := Pad(g, h, PaddingPb(g, h.lsid + 1 + h.total));
        assert p.records == h.records + [p.records[|h.records|]];
        assert h2.records == h.records + [p.records[|h.records|]] + [BioRecord(p, b)];
      } else {
        assert h2.records == h.records + [] + [BioRecord(h, b)];
      }
    }
  }

  /** The 16-bit local lsid of an accepted request is exact unless the request
      is a discard added to a pack that already holds 65535 blocks; there it
      wraps to zero. */
  lemma LsidLocalExact(g: Geometry, h: Header, b: Bio)
    requires Layout(g, h) && ValidBio(b) && b.len > 0
    requires AddBio(g, h, b).1
    ensures var h2 := AddBio(g, h, b).0; var r := h2.records[|h2.records| - 1];
      && (r.lsidLocal == r.lsid - h.lsid <==> !(b.discard && h.total == MAX_TOTAL_IO_SIZE))
      && (b.discard && h.total == MAX_TOTAL_IO_SIZE ==> r.lsidLocal == 0)
  {
    CapacityPbTight(g.nLb, b.len);
  }

  /** A fresh header takes a request exactly when the request and the padding
      it may need fit the 16-bit pack size; so it takes every request of at
      most 32768 physical blocks. */
  lemma FreshHeaderAccepts(g: Geometry, lsid: u64, b: Bio)
    requires ValidBio(b) && lsid + 1 + MAX_TOTAL_IO_SIZE < U64_SIZE
    ensures var h := EmptyHeader(lsid);
      && (AddBio(g, h, b).1 <==>
            !Crosses(g, h, b) || PaddingPb(g, lsid + 1) + BioPb(g, b) <= MAX_TOTAL_IO_SIZE)
      && (BioPb(g, b) <= 32768 ==> AddBio(g, h, b).1)
  {
    CapacityPbTight(g.nLb, b.len);
  }

  // ------------------------------------------------- at most one padding record

  /** Some multiple of the ring size lies in (lo, hi]. */
  ghost predicate BoundaryIn(g: Geometry, lo: nat, hi: nat) {
    exists q: nat :: lo < q * g.ring <= hi
  }

  /** Either no padding yet, or one, which ended at a ring boundary inside the
      pack. */
  ghost predicate OnePadding(g: Geometry, h: Header) {
    h.nPadding == 0 || (h.nPadding == 1 && BoundaryIn(g, h.lsid + 1, h.lsid + 1 + h.total))
  }

  lemma NextBoundary(g: Geometry, lo: nat, at: nat)
    ensures BoundaryIn(g, lo, at) ==> lo + g.ring < at + PaddingPb(g, at)
    ensures lo <= at ==> BoundaryIn(g, lo, at + PaddingPb(g, at))
  {
    var k := at / g.ring;
    DivBounds(at, g.ring);
    MulAdd(k, 1, g.ring);
    assert at + PaddingPb(g, at) == (k + 1) * g.ring;
    if BoundaryIn(g, lo, at) {
      var q: nat :| lo < q * g.ring <= at;
      MulStrict(k, q, g.ring);
      MulAdd(q, k - q, g.ring);
    }
  }

  lemma AddBioTotals(g: Geometry, h: Header, b: Bio)
    requires Layout(g, h) && ValidBio(b)
    ensures var h2, pad := AddBio(g, h, b).0, PaddingPb(g, h.lsid + 1 + h.total);
      && h2.lsid == h.lsid && h2.total >= h.total
      && (h2.nPadding == h.nPadding || (h2.nPadding == h.nPadding + 1 && h.total + pad <= h2.total <= MAX_TOTAL_IO_SIZE))
  {
    LayoutAllowsAdd(g, h);
  }

  /** In a ring of at least 65535 blocks a pack never gets a second padding
      record: reaching the ring end again would overflow the pack size. */
  lemma AddBioKeepsOnePadding(g: Geometry, h: Header, b: Bio)
    requires g.ring >= MAX_TOTAL_IO_SIZE && Layout(g, h) && ValidBio(b) && OnePadding(g, h)
    ensures OnePadding(g, AddBio(g, h, b).0)
  {
    AddBioTotals(g, h, b);
    var lo, at := h.lsid + 1, h.lsid + 1 + h.total;
    NextBoundary(g, lo, at);
    BoundaryWidens(g, lo, at, h.lsid + 1 + AddBio(g, h, b).0.total);
    BoundaryWidens(g, lo, at + PaddingPb(g, at), h.lsid + 1 + AddBio(g, h, b).0.total);
  }

  lemma BoundaryWidens(g: Geometry, lo: nat, hi: nat, hi2: nat)
    ensures BoundaryIn(g, lo, hi) && hi <= hi2 ==> BoundaryIn(g, lo, hi2)
  {
    if BoundaryIn(g, lo, hi) && hi <= hi2 {
      var q: nat :| lo < q * g.ring <= hi;
    }
  }

  /** A header laid out with at most one padding record passes the validity
      test that redo applies. */
  lemma LaidOutIsValid(g: Geometry, h: Header)
    requires Layout(g, h) && OnePadding(g, h)
    ensures ValidHeader(h)
  {
    LayoutAllowsAdd(g, h);
  }

  // ------------------------------------------------------- the header in memory

  /** The header block while it is being filled. */
  class LogpackHeader {
    const g: Geometry
    const lsid: u64
    const record: array<Record>
    var total: u16
    var nRecords: u16
    var nPadding: u16

    ghost predicate Valid()
      reads this
    {
      && record.Length == MaxRecords(g.nLb)
      && nPadding <= nRecords <= record.Length
    }

    function Value(): Header
      requires Valid()
      reads this, record
    {
      Header(0, SECTOR_TYPE_LOGPACK, total, lsid, nPadding, record[..nRecords])
    }

    constructor (geometry: Geometry, logpackLsid: u64)
      ensures Valid() && fresh(record) && g == geometry && Value() == EmptyHeader(logpackLsid)
    {
      g, lsid, total, nRecords, nPadding := geometry, logpackLsid, 0, 0, 0;
      record := new Record[MaxRecords(geometry.nLb)](i => Record(0, false, false, false, 0, 0, 0, 0));
    }

    /** Fills the next free record. */
    method Append(r: Record, pad: nat, size: nat)
      requires Valid() && nRecords < record.Length && pad <= 1 && total + size <= MAX_TOTAL_IO_SIZE
      modifies this, record
      ensures Valid() && nRecords == old(nRecords) + 1 && total == old(total) + size
      ensures Value() == old(Value()).(records := old(Value()).records + [r], nPadding := old(nPadding) + pad,
                                       total := old(total) + size)
    {
      record[nRecords] := r;
      nRecords, nPadding, total := nRecords + 1, nPadding + pad, total + size;
    }

    /** walb_logpack_header_add_bio: fills the next free records in place. */
    method Add(b: Bio) returns (ok: bool)
      requires Valid()
      modifies this, record
      ensures Valid() && (Value(), ok) == AddBio(g, old(Value()), b)
    {
      if nRecords == record.Length {
        return false;
      }
      if b.len == 0 {
        return true;
      }
      var bioPb := CapacityPb(g.nLb, b.len);
      var bioLsid := Wrap64(lsid + 1 + total);
      var paddingPb := g.ring - bioLsid % g.ring;
      if !b.discard && paddingPb < bioPb {
        if total + paddingPb > MAX_TOTAL_IO_SIZE {
          return false;
        }
        Append(Record(0, true, true, false, 0, CapacityLb(g.nLb, paddingPb) % U16_SIZE,
                      Wrap16(Diff64(bioLsid, lsid)), bioLsid), 1, paddingPb);
        bioLsid := Wrap64(bioLsid + paddingPb);
        if nRecords == record.Length {
          return false;
        }
      }
      if !b.discard && total + bioPb > MAX_TOTAL_IO_SIZE {
        return false;
      }
      Append(Record(0, true, false, b.discard, b.pos, b.len, Wrap16(Diff64(bioLsid, lsid)), bioLsid), 0,
             if b.discard then 0 else bioPb);
      return true;
    }
  }
}
