/** Machine integers and the block-size arithmetic of the log.
    include/linux/walb/block_size.h and the constants of walb.h. */
module Words {
  const U16_SIZE: nat := 0x1_0000
  const U32_SIZE: nat := 0x1_0000_0000
  const U64_SIZE: nat := 0x1_0000_0000_0000_0000

  type u16 = x: nat | x < U16_SIZE
  type u32 = x: nat | x < U32_SIZE
  type u64 = x: nat | x < U64_SIZE

  /** One addition that may wrap around in 16 or 64 bits. */
  function Wrap16(x: nat): u16 requires x < 2 * U16_SIZE { if x < U16_SIZE then x else x - U16_SIZE }
  function Wrap64(x: nat): u64 requires x < 2 * U64_SIZE { if x < U64_SIZE then x else x - U64_SIZE }

  /** a - b in 64-bit arithmetic. */
  function Diff64(a: u64, b: u64): u64 { if b <= a then a - b else a + U64_SIZE - b }

  /** A logical block (LOGICAL_BLOCK_SIZE, 512 bytes) seen as 32-bit words. */
  const SECTOR_WORDS: nat := 128
  type Sector = s: seq<u32> | |s| == SECTOR_WORDS witness seq(SECTOR_WORDS, i => 0)

  const MAX_TOTAL_IO_SIZE: nat := 65535      // MAX_TOTAL_IO_SIZE_IN_LOGPACK_HEADER
  const MAX_NORMAL_IO_SECTORS: nat := 65535  // WALB_MAX_NORMAL_IO_SECTORS

  /** The geometry of a log device: logical blocks per physical block
      (n_lb_in_pb, at most a page) and the ring buffer size in physical blocks. */
  datatype RawGeometry = RawGeometry(nLb: nat, ring: nat)
  type Geometry = g: RawGeometry | 1 <= g.nLb <= 8 && 1 <= g.ring witness RawGeometry(1, 1)

  function Min(a: nat, b: nat): nat { if a < b then a else b }

  /** capacity_pb: physical blocks needed for `lb` logical blocks. */
  function CapacityPb(nLb: nat, lb: nat): nat
    requires nLb > 0
  {
    (lb + nLb - 1) / nLb
  }

  /** capacity_lb: logical blocks held by `pb` physical blocks. */
  function CapacityLb(nLb: nat, pb: nat): nat {
    pb * nLb
  }

  /** The numbers of [lo, hi). */
  function Span(lo: nat, hi: nat): (s: set<nat>)
    ensures forall l: nat :: l in s <==> lo <= l < hi
    decreases hi
  {
    if hi <= lo then {} else Span(lo, hi - 1) + {hi - 1}
  }

  lemma DivBounds(x: nat, d: nat)
    requires d > 0
    ensures x / d * d <= x < x / d * d + d
  {
  }

  lemma DivUnique(x: nat, d: nat, q: nat)
    requires d > 0 && q * d <= x < q * d + d
    ensures x / d == q
  {
    DivBounds(x, d);
    MulStrict(x / d, q, d);
    MulStrict(q, x / d, d);
  }

  lemma MulStrict(a: nat, b: nat, d: nat)
    ensures a < b ==> a * d + d <= b * d
  {
    if a < b {
      MulAdd(a, b - a, d);
      MulAdd(1, b - a - 1, d);
    }
  }

  lemma MulGrows(x: nat, d: nat)
    requires d > 0
    ensures x <= x * d
  {
    assert x * d == x * (d - 1) + x;
  }

  lemma MulAdd(a: nat, b: nat, d: nat)
    ensures (a + b) * d == a * d + b * d
    ensures a * d >= 0 && b * d >= 0
  {
  }

  /** The rounding is tight: exactly enough physical blocks, never one too many. */
  lemma CapacityPbTight(nLb: nat, lb: nat)
    requires nLb > 0
    ensures lb <= CapacityLb(nLb, CapacityPb(nLb, lb)) < lb + nLb
    ensures lb > 0 <==> CapacityPb(nLb, lb) > 0
    ensures CapacityPb(nLb, lb) <= lb
  {
    var q := CapacityPb(nLb, lb);
    DivBounds(lb + nLb - 1, nLb);
    MulStrict(lb, q, nLb);
    MulStrict(0, q, nLb);
    MulGrows(lb, nLb);
  }

  /** capacity_pb undoes capacity_lb. */
  lemma CapacityRoundTrip(nLb: nat, pb: nat)
    requires nLb > 0
    ensures CapacityPb(nLb, CapacityLb(nLb, pb)) == pb
  {
    DivUnique(pb * nLb + nLb - 1, nLb, pb);
  }

  /** A request that needs at least `pb + 1` blocks is longer than `pb` blocks. */
  lemma FewerBlocksFewerSectors(nLb: nat, lb: nat, pb: nat)
    requires nLb > 0 && pb < CapacityPb(nLb, lb)
    ensures CapacityLb(nLb, pb) < lb
  {
    CapacityPbTight(nLb, lb);
    MulStrict(pb, CapacityPb(nLb, lb), nLb);
  }
}
