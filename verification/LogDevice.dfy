/** The log device: a ring of physical blocks, what a logpack puts into it and
    when a block of it is intact. */
module LogDevice {
  import opened Words
  import opened Checksum
  import opened LogRecord
  import opened Logpack
  import opened WritePack
  import opened Disk

  /** A physical block is a sequence of `nLb` sectors. */
  type Block = seq<Sector>

  /** get_offset_of_lsid, relative to the start of the ring. */
  function Slot(g: Geometry, lsid: nat): (slot: nat)
    ensures slot < g.ring
  {
    lsid % g.ring
  }

  /** Within a window of the ring size each lsid has a slot of its own. */
  lemma SlotInjective(g: Geometry, a: nat, b: nat)
    requires a < b < a + g.ring
    ensures Slot(g, a) != Slot(g, b)
  {
    var q, r := a / g.ring, b / g.ring;
    DivBounds(a, g.ring);
    DivBounds(b, g.ring);
    if a % g.ring == b % g.ring {
      assert b - a == r * g.ring - q * g.ring;
      MulStrict(q, r, g.ring);
      MulStrict(r, q, g.ring);
    }
  }

  ghost predicate ValidImage(g: Geometry, dev: seq<Block>) {
    |dev| == g.ring && forall i | 0 <= i < |dev| :: |dev[i]| == g.nLb
  }

  /** Slots that no lsid of [lo, hi) maps to are as before. */
  ghost predicate OnlySlots(g: Geometry, before: seq<Block>, after: seq<Block>, lo: nat, hi: nat) {
    && |before| == |after| == g.ring
    && forall s: nat | s < g.ring && (forall l | lo <= l < hi :: Slot(g, l) != s) :: after[s] == before[s]
  }

  lemma OnlySlotsJoin(g: Geometry, a: seq<Block>, b: seq<Block>, c: seq<Block>, lo: nat, mid: nat, mid2: nat, hi: nat)
    requires lo <= mid <= mid2 <= hi && OnlySlots(g, a, b, lo, mid) && OnlySlots(g, b, c, mid2, hi)
    ensures OnlySlots(g, a, c, lo, hi)
  {
  }

  lemma SlotKept(g: Geometry, before: seq<Block>, after: seq<Block>, lo: nat, hi: nat, l: nat)
    requires OnlySlots(g, before, after, lo, hi) && l < lo <= hi <= l + g.ring
    ensures |before| == |after| == g.ring && after[Slot(g, l)] == before[Slot(g, l)]
  {
    forall m | lo <= m < hi ensures Slot(g, m) != Slot(g, l) {
      SlotInjective(g, l, m);
    }
  }

  // ------------------------------------------------------------ header block

  function Chop(ws: seq<u32>, n: nat): (b: Block)
    requires |ws| == n * SECTOR_WORDS
    ensures |b| == n
    decreases n
  {
    if n == 0 then []
    else Chop(ws[..(n - 1) * SECTOR_WORDS], n - 1) + [ws[(n - 1) * SECTOR_WORDS..]]
  }

  lemma {:induction false} FlattenChop(ws: seq<u32>, n: nat)
    requires |ws| == n * SECTOR_WORDS
    ensures Flatten(Chop(ws, n)) == ws
    decreases n
  {
    if n > 0 {
      var m := (n - 1) * SECTOR_WORDS;
      FlattenChop(ws[..m], n - 1);
      assert ws == ws[..m] + ws[m..];
      assert Chop(ws, n)[..n - 1] == Chop(ws[..m], n - 1);
    }
  }

  lemma {:induction false} FlattenLength(b: Block)
    ensures |Flatten(b)| == |b| * SECTOR_WORDS
    decreases |b|
  {
    if b != [] {
      FlattenLength(b[..|b| - 1]);
    }
  }

  function HeaderBlock(g: Geometry, h: Header): Block
    requires |h.records| <= MaxRecords(g.nLb)
  {
    Chop(Encode(g.nLb, h), g.nLb)
  }

  /** The words of a block. */
  function BlockWords(g: Geometry, b: Block): (ws: seq<u32>)
    requires |b| == g.nLb
    ensures |ws| == g.nLb * SECTOR_WORDS
  {
    FlattenLength(b);
    Flatten(b)
  }

  // ----------------------------------------------------------------- sealing

  /** bio_calc_checksum: a discard has none. */
  function BioChecksum(b: Bio, salt: u32): u32 {
    if b.discard || b.len == 0 then 0 else ChecksumOf(Flatten(b.data), salt)
  }

  /** The record that stands for request `j` knows its checksum. */
  function SealedRecord(p: Pack, salt: u32, i: nat): Record
    requires i < |p.header.records|
  {
    var r, j := p.header.records[i], |NonPadding(p.header.records[..i])|;
    if r.padding || j >= |p.bios| then r else r.(checksum := BioChecksum(p.bios[j], salt))
  }

  /** The header as it is written: logpack_calc_checksum. */
  function SealPack(g: Geometry, salt: u32, p: Pack): (h: Header)
    requires |p.header.records| <= MaxRecords(g.nLb)
    ensures |h.records| == |p.header.records| && h.lsid == p.header.lsid && h.total == p.header.total
    ensures h.sectorType == p.header.sectorType && h.nPadding == p.header.nPadding
    ensures forall i | 0 <= i < |h.records| :: h.records[i] == SealedRecord(p, salt, i)
  {
    var n := |p.header.records|;
    Sealed(g.nLb, salt, p.header.(records := seq(n, i requires 0 <= i < n => SealedRecord(p, salt, i))))
  }

  // Counting records: how many requests stand before record `i`.
  lemma CountStep(recs: seq<Record>, i: nat)
    requires i < |recs|
    ensures |NonPadding(recs[..i + 1])| == |NonPadding(recs[..i])| + if recs[i].padding then 0 else 1
    ensures CountPadding(recs[..i + 1]) == CountPadding(recs[..i]) + if recs[i].padding then 1 else 0
    ensures NonPadding(recs[..i + 1]) == NonPadding(recs[..i]) + if recs[i].padding then [] else [recs[i]]
  {
    assert recs[..i + 1][..i] == recs[..i];
  }

  lemma {:induction false} CountMono(recs: seq<Record>, i: nat, k: nat)
    requires i <= k <= |recs|
    ensures |NonPadding(recs[..i])| <= |NonPadding(recs[..k])|
    ensures CountPadding(recs[..i]) <= CountPadding(recs[..k])
    ensures NonPadding(recs[..i]) <= NonPadding(recs[..k])
    decreases k
  {
    if i < k {
      CountMono(recs, i, k - 1);
      CountStep(recs, k - 1);
    }
  }

  /** With a single padding record no other record is one. */
  lemma OnlyPadding(recs: seq<Record>, i: nat, k: nat)
    requires CountPadding(recs) <= 1 && i < k < |recs| && recs[i].padding
    ensures !recs[k].padding
  {
    hide NonPadding;
    CountStep(recs, i);
    CountStep(recs, k);
    CountMono(recs, i + 1, k);
    CountMono(recs, k + 1, |recs|);
    assert recs[..|recs|] == recs;
  }

  /** The records before `i` are sealed, the others untouched. */
  ghost predicate SealedUpTo(p: Pack, salt: u32, recs: seq<Record>, i: nat) {
    && |recs| == |p.header.records| && i <= |recs|
    && forall k | 0 <= k < |recs| :: recs[k] == if k < i then SealedRecord(p, salt, k) else p.header.records[k]
  }

  /** The next record that is a request's: past the padding record, if that is next. */
  lemma NextRequest(g: Geometry, salt: u32, p: Pack, i: nat) returns (n: nat)
    requires PackOk(g, p) && p.header.records != [] && i <= |p.header.records| && |NonPadding(p.header.records[..i])| < |p.bios|
    ensures i < |p.header.records| && n == (if p.header.records[i].padding then i + 1 else i)
    ensures n < |p.header.records| && !p.header.records[n].padding
    ensures |NonPadding(p.header.records[..n])| == |NonPadding(p.header.records[..i])|
    ensures |NonPadding(p.header.records[..n + 1])| == |NonPadding(p.header.records[..i])| + 1
    ensures i < n ==> SealedRecord(p, salt, i) == p.header.records[i]
  {
    hide Layout, OnePadding;
    var recs := p.header.records;
    assert recs[..|recs|] == recs;
    n := i;
    CountStep(recs, n);
    if recs[n].padding {
      OnePaddingLeft(g, p, n);
      n := n + 1;
      CountStep(recs, n);
    }
  }

  lemma SealedAdvance(p: Pack, salt: u32, recs: seq<Record>, i: nat, n: nat)
    requires SealedUpTo(p, salt, recs, i) && i <= n <= i + 1 && n < |recs|
    requires i < n ==> SealedRecord(p, salt, i) == p.header.records[i]
    ensures SealedUpTo(p, salt, recs[n := SealedRecord(p, salt, n)], n + 1)
  {
  }

  /** Stores the checksum of request `j` in its record, skipping the padding
      record if that is next. */
  method SealNext(g: Geometry, salt: u32, p: Pack, record: array<Record>, i: nat, j: nat) returns (next: nat)
    requires PackOk(g, p) && p.header.records != [] && j < |p.bios|
    requires i <= |p.header.records| && SealedUpTo(p, salt, record[..], i) && j == |NonPadding(p.header.records[..i])|
    modifies record
    ensures SealedUpTo(p, salt, record[..], next) && j + 1 == |NonPadding(p.header.records[..next])|
  {
    hide PackOk, SealedUpTo;
    ghost var n := NextRequest(g, salt, p, i);
    ghost var was := record[..];
    assert |was| == |p.header.records| && was[i] == p.header.records[i] && was[n] == p.header.records[n]
      && SealedUpTo(p, salt, was[n := SealedRecord(p, salt, n)], n + 1) by {
      Unsealed(p, salt, was, i, n);
      SealedAdvance(p, salt, was, i, n);
    }
    next := i;
    if record[next].padding {
      next := next + 1;
    }
    var sum := 0;
    if !p.bios[j].discard && p.bios[j].len > 0 {
      sum := ChecksumOfSegments(p.bios[j].data, salt);
    }
    record[next] := record[next].(checksum := sum);
    assert record[..] == was[n := SealedRecord(p, salt, n)];
    next := next + 1;
  }

  lemma Unsealed(p: Pack, salt: u32, recs: seq<Record>, i: nat, n: nat)
    requires SealedUpTo(p, salt, recs, i) && i <= n < |p.header.records|
    ensures |recs| == |p.header.records| && recs[i] == p.header.records[i] && recs[n] == p.header.records[n]
  {
  }

  /** logpack_calc_checksum: walks the requests, skips the padding record and
      leaves every record and the header with their checksums. */
  method CalcChecksums(g: Geometry, salt: u32, p: Pack, record: array<Record>) returns (csum: u32)
    requires PackOk(g, p) && p.header.records != []
    requires record[..] == p.header.records
    modifies record
    ensures SealPack(g, salt, p) == p.header.(records := record[..], checksum := csum)
  {
    var i: nat := 0;
    for j := 0 to |p.bios|
      invariant SealedUpTo(p, salt, record[..], i) && j == |NonPadding(p.header.records[..i])|
    {
      i := SealNext(g, salt, p, record, i, j);
    }
    assert p.header.records[..record.Length] == p.header.records;
    if i < record.Length {
      OnePaddingLast(g, p, i);
      assert record[i] == SealedRecord(p, salt, i);
      i := i + 1;
    }
    csum := ChecksumOf(Encode(g.nLb, p.header.(records := record[..], checksum := 0)), salt);
    assert record[..] == SealPack(g, salt, p).records;
  }

  /** A padding record with requests behind it is followed by a request's. */
  lemma OnePaddingLeft(g: Geometry, p: Pack, i: nat)
    requires PackOk(g, p) && i < |p.header.records| && p.header.records[i].padding
    requires |NonPadding(p.header.records[..i])| < |NonPadding(p.header.records)|
    ensures i + 1 < |p.header.records| && !p.header.records[i + 1].padding
  {
    var recs := p.header.records;
    CountStep(recs, i);
    assert recs[..|recs|] == recs;
    if i + 1 < |recs| {
      OnlyPadding(recs, i, i + 1);
    }
  }

  /** Once every request has its record only one padding record can be left. */
  lemma OnePaddingLast(g: Geometry, p: Pack, i: nat)
    requires PackOk(g, p) && i < |p.header.records|
    requires |NonPadding(p.header.records[..i])| == |NonPadding(p.header.records)|
    ensures p.header.records[i].padding && i + 1 == |p.header.records|
  {
    var recs := p.header.records;
    assert recs[..|recs|] == recs;
    CountStep(recs, i);
    CountMono(recs, i + 1, |recs|);
    if i + 1 < |recs| {
      OnlyPadding(recs, i, i + 1);
      CountStep(recs, i + 1);
      CountMono(recs, i + 2, |recs|);
    }
  }

  // -------------------------------------------------------- blocks of a pack

  /** Request `j` of a pack as it stands in the log. */
  datatype Logged = Logged(w: Write, lsid: nat, pb: nat, fua: bool)

  function End(l: Logged): nat { l.lsid + l.pb }

  /** The requests of a pack with their places; none for a zero-size flush. */
  function LoggedOf(g: Geometry, p: Pack): seq<Logged> {
    var data := NonPadding(p.header.records);
    if p.header.records == [] || |data| != |p.bios| then []
    else
      seq(|p.bios|, j requires 0 <= j < |p.bios| =>
        Logged(Write(p.bios[j].pos, p.bios[j].data), data[j].lsid, RecordPb(g, data[j]), p.bios[j].fua))
  }

  /** The sectors of `data` that go to its `k`-th block. */
  function Piece(g: Geometry, data: seq<Sector>, k: nat): seq<Sector> {
    if k * g.nLb >= |data| then [] else data[k * g.nLb..Min(|data|, (k + 1) * g.nLb)]
  }

  /** The lsids at which submitting the pack writes a block: the header and the
      data blocks, but not the padding. */
  ghost predicate HasBlock(g: Geometry, p: Pack, l: nat) {
    p.header.records != []
    && (l == p.header.lsid || exists j :: 0 <= j < |LoggedOf(g, p)| && InRange(LoggedOf(g, p)[j], l))
  }

  predicate InRange(e: Logged, l: nat) { e.lsid <= l < End(e) }

  /** The block at `l` holds what the pack put there. A last block that the
      data does not fill is written only as far as the data goes. */
  ghost predicate BlockIntact(g: Geometry, salt: u32, dev: seq<Block>, p: Pack, l: nat)
    requires ValidImage(g, dev) && |p.header.records| <= MaxRecords(g.nLb)
  {
    && (l == p.header.lsid ==> dev[Slot(g, l)] == HeaderBlock(g, SealPack(g, salt, p)))
    && forall j | 0 <= j < |LoggedOf(g, p)| && InRange(LoggedOf(g, p)[j], l) ::
         Piece(g, LoggedOf(g, p)[j].w.data, l - LoggedOf(g, p)[j].lsid) <= dev[Slot(g, l)]
  }

  /** The data model of the pipeline and of replay: no discards. */
  ghost predicate NoDiscards(p: Pack) {
    forall j | 0 <= j < |p.bios| :: !p.bios[j].discard
  }

  // ------------------------------------------------------------ order of lsids

  lemma SizeSumStep(g: Geometry, recs: seq<Record>, i: nat)
    requires i < |recs|
    ensures SizeSum(g, recs[..i + 1]) == SizeSum(g, recs[..i]) + RecordPb(g, recs[i])
  {
    assert recs[..i + 1][..i] == recs[..i];
  }

  lemma {:induction false} SizeSumMono(g: Geometry, recs: seq<Record>, i: nat, k: nat)
    requires i <= k <= |recs|
    ensures SizeSum(g, recs[..i]) <= SizeSum(g, recs[..k])
    decreases k
  {
    if i < k {
      SizeSumMono(g, recs, i, k - 1);
      SizeSumStep(g, recs, k - 1);
    }
  }

  /** The record of request `j`. */
  lemma {:induction false} RecordOf(recs: seq<Record>, j: nat) returns (i: nat)
    requires j < |NonPadding(recs)|
    ensures i < |recs| && !recs[i].padding && |NonPadding(recs[..i])| == j && recs[i] == NonPadding(recs)[j]
    decreases |recs|
  {
    var n := |recs| - 1;
    if j < |NonPadding(recs[..n])| {
      i := RecordOf(recs[..n], j);
      assert recs[..n][..i] == recs[..i];
    } else {
      i := n;
    }
  }

  /** A request's record and its place. */
  lemma PlaceOf(g: Geometry, p: Pack, j: nat) returns (i: nat)
    requires PackOk(g, p) && NoDiscards(p) && j < |LoggedOf(g, p)|
    ensures i < |p.header.records| && !p.header.records[i].padding && !p.header.records[i].discard
    ensures |NonPadding(p.header.records[..i])| == j && Describes(p.header.records[i], p.bios[j])
    ensures var e, r := LoggedOf(g, p)[j], p.header.records[i];
      && e.lsid == r.lsid == p.header.lsid + 1 + SizeSum(g, p.header.records[..i])
      && e.pb == RecordPb(g, r) == BioPb(g, p.bios[j]) > 0
      && e.w == Write(p.bios[j].pos, p.bios[j].data) && e.fua == p.bios[j].fua
      && End(e) == p.header.lsid + 1 + SizeSum(g, p.header.records[..i + 1]) <= NextLsid(p.header)
  {
    hide OnePadding;
    i := RecordOf(p.header.records, j);
    assert RecordLaidOut(g, p.header, i);
    assert Describes(NonPadding(p.header.records)[j], p.bios[j]);
    CapacityPbTight(g.nLb, p.bios[j].len);
    SizeSumStep(g, p.header.records, i);
    SizeSumMono(g, p.header.records, i + 1, |p.header.records|);
    assert p.header.records[..|p.header.records|] == p.header.records;
  }

  lemma IndexOrder(recs: seq<Record>, i: nat, k: nat)
    requires i < |recs| && k < |recs| && !recs[i].padding
    requires |NonPadding(recs[..i])| < |NonPadding(recs[..k])|
    ensures i < k
  {
    if k <= i {
      CountMono(recs, k, i);
    }
  }

  /** Inside a pack the requests follow the header, in order, without overlap. */
  lemma LoggedOrder(g: Geometry, p: Pack, j: nat, k: nat)
    requires PackOk(g, p) && NoDiscards(p) && j < k < |LoggedOf(g, p)|
    ensures p.header.lsid < LoggedOf(g, p)[j].lsid < End(LoggedOf(g, p)[j]) <= LoggedOf(g, p)[k].lsid
  {
    var a := PlaceOf(g, p, j);
    var b := PlaceOf(g, p, k);
    IndexOrder(p.header.records, a, b);
    SizeSumMono(g, p.header.records, a + 1, b);
  }

  lemma NoWrap(l: nat, k: nat, n: nat, ring: nat)
    requires ring > 0 && l % ring + n <= ring && k < n
    ensures (l + k) % ring == l % ring + k
  {
    var q, r := l / ring, l % ring;
    assert l + k == q * ring + (r + k);
    DivUnique(l + k, ring, q);
  }

  /** What padding is for: the blocks of a request lie one behind the other on the
      device and never go around the end of the ring, so one I/O writes them. */
  lemma ConsecutiveSlots(g: Geometry, p: Pack, j: nat, k: nat)
    requires PackOk(g, p) && NoDiscards(p) && j < |LoggedOf(g, p)|
    requires k < LoggedOf(g, p)[j].pb <= g.ring
    ensures Slot(g, LoggedOf(g, p)[j].lsid + k) == Slot(g, LoggedOf(g, p)[j].lsid) + k < g.ring
  {
    var i := PlaceOf(g, p, j);
    assert RecordLaidOut(g, p.header, i);
    NoWrap(LoggedOf(g, p)[j].lsid, k, LoggedOf(g, p)[j].pb, g.ring);
    hide LoggedOf, PackOk, NonPadding;
  }
}
