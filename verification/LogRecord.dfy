/** The logpack header block: include/linux/walb/log_record.h.
    A header is encoded into the words of one physical block exactly as the
    packed little-endian structures lay it out. */
module LogRecord {
  import opened Words
  import opened Checksum

  const SECTOR_TYPE_LOGPACK: u16 := 3
  const MAX_LSID: nat := U64_SIZE - 2

  datatype Record = Record(
    checksum: u32,
    exist: bool, padding: bool, discard: bool,
    offset: u64,
    ioSize: u32,
    lsidLocal: u16,
    lsid: u64)

  /** walb_logpack_header. n_records is the length of `records`. */
  datatype Header = Header(
    checksum: u32,
    sectorType: u16,
    total: u16,         // total_io_size
    lsid: u64,          // logpack_lsid
    nPadding: u16,
    records: seq<Record>)

  /** max_n_log_record_in_sector: a 24-byte header and 32-byte records. */
  function MaxRecords(nLb: nat): (n: nat)
    requires 1 <= nLb <= 8
    ensures 15 <= n < U16_SIZE && 6 + 8 * n <= nLb * SECTOR_WORDS
  {
    (nLb * SECTOR_WORDS - 6) / 8
  }

  /** No record more would fit into the block. */
  lemma MaxRecordsTight(nLb: nat, n: nat)
    requires 1 <= nLb <= 8
    ensures 6 + 8 * n <= nLb * SECTOR_WORDS <==> n <= MaxRecords(nLb)
  {
    DivBounds(nLb * SECTOR_WORDS - 6, 8);
  }

  /** is_valid_logpack_header */
  predicate ValidHeader(h: Header) {
    && h.sectorType == SECTOR_TYPE_LOGPACK
    && (if h.records == [] then h.total == 0 && h.nPadding == 0
        else h.nPadding <= 1 && h.nPadding <= |h.records| && h.lsid < (h.lsid + 1 + h.total) % U64_SIZE)
  }

  /** get_next_lsid_unsafe */
  function NextLsid(h: Header): nat {
    if h.total == 0 && h.records == [] then h.lsid else h.lsid + 1 + h.total
  }

  // ---------------------------------------------------------------- encoding

  function Bit(b: bool, v: nat): nat { if b then v else 0 }

  function Flags(r: Record): u32 {
    Bit(r.exist, 1) + Bit(r.padding, 2) + Bit(r.discard, 4)
  }

  function RecordWord(r: Record, j: nat): u32 {
    match j
    case 0 => r.checksum
    case 1 => Flags(r)
    case 2 => r.offset % U32_SIZE
    case 3 => r.offset / U32_SIZE
    case 4 => r.ioSize
    case 5 => r.lsidLocal                 // the upper half is reserved1, zero
    case 6 => r.lsid % U32_SIZE
    case _ => r.lsid / U32_SIZE
  }

  function HeaderWord(h: Header, i: nat): u32
    requires |h.records| < U16_SIZE
  {
    match i
    case 0 => h.checksum
    case 1 => h.sectorType + h.total * U16_SIZE
    case 2 => h.lsid % U32_SIZE
    case 3 => h.lsid / U32_SIZE
    case 4 => |h.records| + h.nPadding * U16_SIZE
    case _ => 0                           // reserved1
  }

  function WordAt(h: Header, i: nat): u32
    requires |h.records| < U16_SIZE
  {
    if i < 6 then HeaderWord(h, i)
    else if (i - 6) / 8 < |h.records| then RecordWord(h.records[(i - 6) / 8], (i - 6) % 8)
    else 0
  }

  /** The words of the header block. */
  function Encode(nLb: nat, h: Header): (ws: seq<u32>)
    requires 1 <= nLb <= 8 && |h.records| <= MaxRecords(nLb)
    ensures |ws| == nLb * SECTOR_WORDS
  {
    seq(nLb * SECTOR_WORDS, i requires 0 <= i => WordAt(h, i))
  }

  function RecordFrom(ws: seq<u32>, at: nat): Record
    requires at + 8 <= |ws|
  {
    Record(ws[at], ws[at + 1] % 2 == 1, ws[at + 1] / 2 % 2 == 1, ws[at + 1] / 4 % 2 == 1,
           ws[at + 2] + ws[at + 3] * U32_SIZE, ws[at + 4], ws[at + 5] % U16_SIZE,
           ws[at + 6] + ws[at + 7] * U32_SIZE)
  }

  /** A header block read back. A record count beyond the capacity of the
      block is cut to it. */
  function Decode(nLb: nat, ws: seq<u32>): Header
    requires 1 <= nLb <= 8 && |ws| == nLb * SECTOR_WORDS
  {
    var n := Min(ws[4] % U16_SIZE, MaxRecords(nLb));
    Header(ws[0], ws[1] % U16_SIZE, ws[1] / U16_SIZE, ws[2] + ws[3] * U32_SIZE, ws[4] / U16_SIZE,
           seq(n, k requires 0 <= k < n => RecordFrom(ws, 6 + 8 * k)))
  }

  lemma SplitWord(lo: nat, hi: nat, base: nat)
    requires lo < base
    ensures (lo + hi * base) % base == lo && (lo + hi * base) / base == hi
  {
    DivUnique(lo + hi * base, base, hi);
    DivBounds(lo + hi * base, base);
  }

  lemma JoinWord(x: nat, base: nat)
    requires base > 0
    ensures x % base + x / base * base == x
  {
  }

  lemma FlagsBits(r: Record)
    ensures Flags(r) % 2 == 1 <==> r.exist
    ensures Flags(r) / 2 % 2 == 1 <==> r.padding
    ensures Flags(r) / 4 % 2 == 1 <==> r.discard
  {
  }

  lemma EncodedWord(nLb: nat, h: Header, k: nat, j: nat)
    requires 1 <= nLb <= 8 && |h.records| <= MaxRecords(nLb) && k < |h.records| && j < 8
    ensures 6 + 8 * k + 8 <= nLb * SECTOR_WORDS
    ensures Encode(nLb, h)[6 + 8 * k + j] == RecordWord(h.records[k], j)
  {
    SplitWord(j, k, 8);
  }

  lemma RecordWordsRead(ws: seq<u32>, at: nat, r: Record)
    requires at + 8 <= |ws|
    requires ws[at] == RecordWord(r, 0) && ws[at + 1] == RecordWord(r, 1)
    requires ws[at + 2] == RecordWord(r, 2) && ws[at + 3] == RecordWord(r, 3)
    requires ws[at + 4] == RecordWord(r, 4) && ws[at + 5] == RecordWord(r, 5)
    requires ws[at + 6] == RecordWord(r, 6) && ws[at + 7] == RecordWord(r, 7)
    ensures RecordFrom(ws, at) == r
  {
    FlagsBits(r);
    assert r.offset % U32_SIZE + r.offset / U32_SIZE * U32_SIZE == r.offset by { JoinWord(r.offset, U32_SIZE); }
    assert r.lsid % U32_SIZE + r.lsid / U32_SIZE * U32_SIZE == r.lsid by { JoinWord(r.lsid, U32_SIZE); }
    assert r.lsidLocal % U16_SIZE == r.lsidLocal;
  }

  lemma EncodedRecord(nLb: nat, h: Header, k: nat)
    requires 1 <= nLb <= 8 && |h.records| <= MaxRecords(nLb) && k < |h.records|
    ensures 6 + 8 * k + 8 <= nLb * SECTOR_WORDS
    ensures RecordFrom(Encode(nLb, h), 6 + 8 * k) == h.records[k]
  {
    var r, ws, at := h.records[k], Encode(nLb, h), 6 + 8 * k;
    EncodedWord(nLb, h, k, 0);
    EncodedWord(nLb, h, k, 1);
    EncodedWord(nLb, h, k, 2);
    EncodedWord(nLb, h, k, 3);
    EncodedWord(nLb, h, k, 4);
    EncodedWord(nLb, h, k, 5);
    EncodedWord(nLb, h, k, 6);
    EncodedWord(nLb, h, k, 7);
    RecordWordsRead(ws, at, r);
  }

  lemma EncodedFields(nLb: nat, h: Header)
    requires 1 <= nLb <= 8 && |h.records| <= MaxRecords(nLb)
    ensures var d := Decode(nLb, Encode(nLb, h));
            d.(records := []) == h.(records := []) && |d.records| == |h.records|
  {
    SplitWord(h.sectorType, h.total, U16_SIZE);
    SplitWord(|h.records|, h.nPadding, U16_SIZE);
    JoinWord(h.lsid, U32_SIZE);
  }

  /** Reading back an encoded header gives the header. */
  lemma HeaderRoundTrip(nLb: nat, h: Header)
    requires 1 <= nLb <= 8 && |h.records| <= MaxRecords(nLb)
    ensures Decode(nLb, Encode(nLb, h)) == h
  {
    var d := Decode(nLb, Encode(nLb, h));
    EncodedFields(nLb, h);
    forall k | 0 <= k < |h.records| ensures d.records[k] == h.records[k] {
      EncodedRecord(nLb, h, k);
    }
    assert d.records == h.records;
  }

  /** Where the fields of record `k` stand in the block, little-endian: checksum, flags,
      offset in two words, size, local lsid, lsid in two words. */
  lemma RecordOnDisk(nLb: nat, h: Header, k: nat)
    requires 1 <= nLb <= 8 && |h.records| <= MaxRecords(nLb) && k < |h.records|
    ensures 6 + 8 * k + 8 <= nLb * SECTOR_WORDS
    ensures var ws, at, r := Encode(nLb, h), 6 + 8 * k, h.records[k];
      && ws[at] == r.checksum && ws[at + 4] == r.ioSize && ws[at + 5] == r.lsidLocal
      && ws[at + 2] + ws[at + 3] * U32_SIZE == r.offset && ws[at + 6] + ws[at + 7] * U32_SIZE == r.lsid
      && ws[at + 1] == (if r.exist then 1 else 0) + (if r.padding then 2 else 0) + (if r.discard then 4 else 0)
  {
    EncodedWord(nLb, h, k, 0);
    EncodedWord(nLb, h, k, 1);
    EncodedWord(nLb, h, k, 2);
    EncodedWord(nLb, h, k, 3);
    EncodedWord(nLb, h, k, 4);
    EncodedWord(nLb, h, k, 5);
    EncodedWord(nLb, h, k, 6);
    EncodedWord(nLb, h, k, 7);
    JoinWord(h.records[k].offset, U32_SIZE);
    JoinWord(h.records[k].lsid, U32_SIZE);
    hide Encode;
  }

  /** And those of the header. */
  lemma HeaderOnDisk(nLb: nat, h: Header)
    requires 1 <= nLb <= 8 && |h.records| <= MaxRecords(nLb)
    ensures var ws := Encode(nLb, h);
      && ws[0] == h.checksum && ws[1] == h.sectorType + h.total * U16_SIZE && ws[2] + ws[3] * U32_SIZE == h.lsid
      && ws[4] == |h.records| + h.nPadding * U16_SIZE && ws[5] == 0
      && forall i | 6 + 8 * |h.records| <= i < |ws| :: ws[i] == 0
  {
    JoinWord(h.lsid, U32_SIZE);
  }

  // ---------------------------------------------------------------- checksum

  /** The header with its own checksum filled in. */
  function Sealed(nLb: nat, salt: u32, h: Header): Header
    requires 1 <= nLb <= 8 && |h.records| <= MaxRecords(nLb)
  {
    var open := h.(checksum := 0);
    open.(checksum := ChecksumOf(Encode(nLb, open), salt))
  }

  /** is_valid_logpack_header_with_checksum, on the words of a block. The
      checksum of a header without records is not looked at. */
  predicate ValidBlock(nLb: nat, salt: u32, ws: seq<u32>)
    requires 1 <= nLb <= 8 && |ws| == nLb * SECTOR_WORDS
  {
    var h := Decode(nLb, ws);
    ValidHeader(h) && (h.records != [] ==> ChecksumOf(ws, salt) == 0)
  }

  /** A sealed valid header passes the validity test and reads back. */
  lemma SealedIsValid(nLb: nat, salt: u32, h: Header)
    requires 1 <= nLb <= 8 && |h.records| <= MaxRecords(nLb) && ValidHeader(h)
    ensures var s := Sealed(nLb, salt, h);
            Decode(nLb, Encode(nLb, s)) == s && ValidBlock(nLb, salt, Encode(nLb, s))
  {
    var s, open := Sealed(nLb, salt, h), h.(checksum := 0);
    HeaderRoundTrip(nLb, s);
    assert Encode(nLb, s) == Encode(nLb, open)[0 := s.checksum];
    SelfChecksum(Encode(nLb, open), 0, salt);
  }
}
