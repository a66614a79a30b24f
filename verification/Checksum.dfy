/** include/linux/walb/checksum.h: the additive 32-bit checksum of the log. */
module Checksum {
  import opened Words

  /** Unsigned 32-bit addition, which wraps around. */
  function Add32(a: u32, b: u32): u32 {
    if a + b < U32_SIZE then a + b else a + b - U32_SIZE
  }

  /** What checksum_partial accumulates over whole words. */
  function SumWords(sum: u32, ws: seq<u32>): u32
    decreases |ws|
  {
    if ws == [] then sum else Add32(SumWords(sum, ws[..|ws| - 1]), ws[|ws| - 1])
  }

  /** checksum_partial */
  method ChecksumPartial(start: u32, data: seq<u32>) returns (sum: u32)
    ensures sum == SumWords(start, data)
  {
    sum := start;
    for i := 0 to |data|
      invariant sum == SumWords(start, data[..i])
    {
      assert data[..i + 1][..i] == data[..i];
      sum := Add32(sum, data[i]);
    }
    assert data[..|data|] == data;
  }

  /** checksum_finish: ~sum + 1 in 32 bits. */
  function Finish(sum: u32): u32 {
    Add32(U32_SIZE - 1 - sum, 1)
  }

  function ChecksumOf(data: seq<u32>, salt: u32): u32 {
    Finish(SumWords(salt, data))
  }

  /** All the words of a list of segments, in order. */
  function Flatten(segs: seq<seq<u32>>): seq<u32>
    decreases |segs|
  {
    if segs == [] then [] else Flatten(segs[..|segs| - 1]) + segs[|segs| - 1]
  }

  /** The checksum does not depend on where the data is cut: summing one part
      and going on with the other is summing the whole. */
  lemma {:induction false} SumConcat(sum: u32, a: seq<u32>, b: seq<u32>)
    ensures SumWords(sum, a + b) == SumWords(SumWords(sum, a), b)
    decreases |b|
  {
    if b == [] {
      assert a + b == a;
    } else {
      var ab := a + b;
      assert ab[..|ab| - 1] == a + b[..|b| - 1];
      SumConcat(sum, a, b[..|b| - 1]);
    }
  }

  lemma {:induction false} FlattenConcat(a: seq<seq<u32>>, b: seq<seq<u32>>)
    ensures Flatten(a + b) == Flatten(a) + Flatten(b)
    decreases |b|
  {
    if b == [] {
      assert a + b == a;
    } else {
      var ab := a + b;
      assert ab[..|ab| - 1] == a + b[..|b| - 1];
      FlattenConcat(a, b[..|b| - 1]);
    }
  }

  /** bio_calc_checksum_iter at write time walks the memory segments of a
      request; whatever the segmentation, the result is the checksum of the
      data itself. */
  method ChecksumOfSegments(segs: seq<seq<u32>>, salt: u32) returns (csum: u32)
    ensures csum == ChecksumOf(Flatten(segs), salt)
  {
    var sum := salt;
    for i := 0 to |segs|
      invariant sum == SumWords(salt, Flatten(segs[..i]))
    {
      SumConcat(salt, Flatten(segs[..i]), segs[i]);
      assert segs[..i + 1][..i] == segs[..i];
      sum := ChecksumPartial(sum, segs[i]);
    }
    assert segs[..|segs|] == segs;
    csum := Finish(sum);
  }

  /** Replacing a zero word by `v` adds `v` to the sum. */
  lemma {:induction false} SumPatch(sum: u32, ws: seq<u32>, i: nat, v: u32)
    requires i < |ws| && ws[i] == 0
    ensures SumWords(sum, ws[i := v]) == Add32(SumWords(sum, ws), v)
    decreases |ws|
  {
    var n := |ws| - 1;
    var patched := ws[i := v];
    if i == n {
      assert patched[..n] == ws[..n];
    } else {
      assert patched[..n] == ws[..n][i := v];
      SumPatch(sum, ws[..n], i, v);
    }
  }

  /** Storing the checksum of a block that has zero in its checksum field makes
      the checksum of the whole block zero: the validity test of a header. */
  lemma SelfChecksum(ws: seq<u32>, i: nat, salt: u32)
    requires i < |ws| && ws[i] == 0
    ensures ChecksumOf(ws[i := ChecksumOf(ws, salt)], salt) == 0
  {
    SumPatch(salt, ws, i, ChecksumOf(ws, salt));
  }

  // ------------------------------------------------- what the checksum tells apart

  /** The words added up as whole numbers. */
  function Total(ws: seq<u32>): nat
    decreases |ws|
  {
    if ws == [] then 0 else Total(ws[..|ws| - 1]) + ws[|ws| - 1]
  }

  lemma AddIsModular(a: nat, b: u32)
    ensures Add32(a % U32_SIZE, b) == (a + b) % U32_SIZE
  {
  }

  lemma {:induction false} SumIsTotal(sum: u32, ws: seq<u32>)
    ensures SumWords(sum, ws) == (sum + Total(ws)) % U32_SIZE
    decreases |ws|
  {
    if ws != [] {
      var n := |ws| - 1;
      SumIsTotal(sum, ws[..n]);
      AddIsModular(sum + Total(ws[..n]), ws[n]);
    }
  }

  lemma NegatedSum(n: nat)
    ensures (Finish(n % U32_SIZE) + n) % U32_SIZE == 0
  {
  }

  /** The law of the checksum: with the salt and the words it adds up to 0 modulo
      2^32. There is only one such number below 2^32. */
  lemma {:induction false} ChecksumLaw(ws: seq<u32>, salt: u32)
    ensures (ChecksumOf(ws, salt) + salt + Total(ws)) % U32_SIZE == 0
  {
    SumIsTotal(salt, ws);
    NegatedSum(salt + Total(ws));
  }

  lemma SameResidue(a: u32, b: u32, n: nat, m: nat)
    requires (a + n) % U32_SIZE == 0 && (b + m) % U32_SIZE == 0
    ensures a == b <==> n % U32_SIZE == m % U32_SIZE
  {
  }

  lemma ShiftedResidue(n: nat, m: nat, k: nat)
    ensures (n + k) % U32_SIZE == (m + k) % U32_SIZE <==> n % U32_SIZE == m % U32_SIZE
  {
  }

  /** Two pieces of data have the same checksum if and only if their sums agree
      modulo 2^32, whatever the salt. */
  lemma TellsApart(a: seq<u32>, b: seq<u32>, salt: u32)
    ensures ChecksumOf(a, salt) == ChecksumOf(b, salt) <==> Total(a) % U32_SIZE == Total(b) % U32_SIZE
  {
    ChecksumLaw(a, salt);
    ChecksumLaw(b, salt);
    SameResidue(ChecksumOf(a, salt), ChecksumOf(b, salt), salt + Total(a), salt + Total(b));
    ShiftedResidue(Total(a), Total(b), salt);
  }

  lemma {:induction false} TotalPatch(ws: seq<u32>, i: nat, v: u32)
    requires i < |ws|
    ensures Total(ws[i := v]) + ws[i] == Total(ws) + v
    decreases |ws|
  {
    var n := |ws| - 1;
    if i == n {
      assert ws[i := v][..n] == ws[..n];
    } else {
      assert ws[i := v][..n] == ws[..n][i := v];
      TotalPatch(ws[..n], i, v);
    }
  }

  lemma SmallDifference(n: nat, m: nat, a: u32, b: u32)
    requires n + a == m + b && n % U32_SIZE == m % U32_SIZE
    ensures a == b
  {
  }

  /** A change of exactly one word is always seen. */
  lemma OneWordChanged(ws: seq<u32>, i: nat, v: u32, salt: u32)
    requires i < |ws| && v != ws[i]
    ensures ChecksumOf(ws[i := v], salt) != ChecksumOf(ws, salt)
  {
    TellsApart(ws[i := v], ws, salt);
    TotalPatch(ws, i, v);
    if Total(ws[i := v]) % U32_SIZE == Total(ws) % U32_SIZE {
      SmallDifference(Total(ws[i := v]), Total(ws), ws[i], v);
    }
  }
}
