/** How full create_logpack_list makes its packs: module/io.c, is_pack_size_too_large
    and writepack_add_bio_wrapper. */
module PackLimit {
  import opened Words
  import opened LogRecord
  import opened Logpack
  import opened WritePack

  // ------------------------------------------------------ what a header takes

  /** Blocks that must be left empty so that the request does not cross the ring end. */
  function GapBefore(g: Geometry, h: Header, b: Bio): nat {
    var left := g.ring - (h.lsid + 1 + h.total) % g.ring;
    if !b.discard && left < BioPb(g, b) then left else 0
  }

  /** A header takes a request if and only if it has records left for it and for the
      gap before it, and the sizes of both still fit 16 bits. A flush without data
      takes neither. */
  lemma TakesExactly(g: Geometry, h: Header, b: Bio)
    requires Layout(g, h) && ValidBio(b)
    ensures var gap := GapBefore(g, h, b);
      AddBio(g, h, b).1 <==>
        && |h.records| + (if gap > 0 then 1 else 0) < MaxRecords(g.nLb)
        && (b.discard || b.len == 0 || h.total + gap + BioPb(g, b) <= MAX_TOTAL_IO_SIZE)
  {
    CapacityPbTight(g.nLb, b.len);
    LayoutAllowsAdd(g, h);
  }

  /** What a refused request leaves behind: the padding up to the ring end if it needs
      one and the header still takes that, and nothing otherwise. */
  lemma RefusalLeaves(g: Geometry, h: Header, b: Bio)
    requires Layout(g, h) && ValidBio(b) && b.len > 0 && !AddBio(g, h, b).1
    ensures var h2, gap := AddBio(g, h, b).0, GapBefore(g, h, b);
      if gap > 0 && |h.records| < MaxRecords(g.nLb) && h.total + gap <= MAX_TOTAL_IO_SIZE then
        && |h2.records| == |h.records| + 1 && h2.records[..|h.records|] == h.records && h2.records[|h.records|].padding
        && h2.lsid == h.lsid && h2.total == h.total + gap && (h2.lsid + 1 + h2.total) % g.ring == 0
      else h2 == h
  {
    CapacityPbTight(g.nLb, b.len);
    LayoutAllowsAdd(g, h);
    ModSum(h.lsid + 1 + h.total, g.ring);
  }

  // ------------------------------------------------------------- the size limit

  /** The record before `i` is the padding for it. */
  function StartOf(recs: seq<Record>, i: nat): nat
    requires i < |recs|
  {
    if i > 0 && recs[i - 1].padding then i - 1 else i
  }

  /** Record `i`, if it is a request behind the first: together with what is before it
      and its own padding it stays within max_logpack_pb. */
  ghost predicate WithinAt(g: Geometry, maxPb: nat, recs: seq<Record>, i: nat)
    requires i < |recs|
  {
    maxPb != 0 && !recs[i].padding && !recs[i].discard && NonPadding(recs[..i]) != [] ==>
      SizeSum(g, recs[..StartOf(recs, i)]) + RecordPb(g, recs[i]) <= maxPb
  }

  ghost predicate WithinLimit(g: Geometry, maxPb: nat, recs: seq<Record>) {
    forall i | 0 <= i < |recs| :: WithinAt(g, maxPb, recs, i)
  }

  /** The request would go over the limit of the pack. */
  predicate OverLimit(g: Geometry, maxPb: nat, h: Header, b: Bio) {
    maxPb != 0 && !b.discard && SizeSum(g, h.records) + BioPb(g, b) > maxPb
  }

  /** The header, before it got any padding for the request, did not take it. */
  ghost predicate Refused(g: Geometry, h: Header, b: Bio) {
    exists h0 :: AddBio(g, h0, b) == (h, false) && Layout(g, h0)
  }

  /** Why a pack ends in front of a request: the request is a flush, or is too large,
      or the pack is a flush without data, or its header has no room. */
  ghost predicate EndsFor(g: Geometry, maxPb: nat, p: Pack, b: Bio) {
    p.header.records == [] || b.flush || OverLimit(g, maxPb, p.header, b) || Refused(g, p.header, b)
  }

  ghost predicate AllWithin(g: Geometry, maxPb: nat, ps: seq<Pack>) {
    forall i | 0 <= i < |ps| :: WithinLimit(g, maxPb, ps[i].header.records)
  }

  /** Each pack but the last ends for the first request of the next. */
  ghost predicate EndsRight(g: Geometry, maxPb: nat, ps: seq<Pack>) {
    forall i | 0 < i < |ps| :: ps[i].bios != [] && EndsFor(g, maxPb, ps[i - 1], ps[i].bios[0])
  }

  predicate EndsInRequest(h: Header) {
    h.records != [] ==> !h.records[|h.records| - 1].padding
  }

  // ------------------------------------------------------------- one request

  lemma {:induction false} SumMore(g: Geometry, recs: seq<Record>, r: Record)
    ensures SizeSum(g, recs + [r]) == SizeSum(g, recs) + RecordPb(g, r)
  {
    assert (recs + [r])[..|recs|] == recs;
  }

  /** A record's limit depends only on the records up to it. */
  lemma WithinPrefix(g: Geometry, maxPb: nat, recs: seq<Record>, more: seq<Record>, i: nat)
    requires i < |recs| && WithinAt(g, maxPb, recs, i)
    ensures WithinAt(g, maxPb, recs + more, i)
  {
    var all := recs + more;
    assert all[..i] == recs[..i] && StartOf(all, i) == StartOf(recs, i);
    assert all[..StartOf(all, i)] == recs[..StartOf(recs, i)];
    hide SizeSum, RecordPb, NonPadding, StartOf;
  }

  /** The new request itself. */
  lemma WithinLast(g: Geometry, maxPb: nat, recs: seq<Record>, pads: seq<Record>, r: Record)
    requires !r.padding && (pads == [] || (|pads| == 1 && pads[0].padding))
    requires recs != [] ==> !recs[|recs| - 1].padding
    requires recs == [] || maxPb == 0 || r.discard || SizeSum(g, recs) + RecordPb(g, r) <= maxPb
    ensures WithinAt(g, maxPb, recs + pads + [r], |recs| + |pads|)
  {
    var all, i := recs + pads + [r], |recs| + |pads|;
    assert all[i] == r && all[..|recs|] == recs && all[..i] == recs + pads;
    assert StartOf(all, i) == |recs|;
    if recs == [] {
      assert recs + pads == pads;
      PadsAreNone(pads);
    }
    hide SizeSum, RecordPb, NonPadding, StartOf;
  }

  /** One more request at the end, behind `pads`. */
  lemma WithinMore(g: Geometry, maxPb: nat, recs: seq<Record>, pads: seq<Record>, r: Record)
    requires WithinLimit(g, maxPb, recs) && !r.padding && (pads == [] || (|pads| == 1 && pads[0].padding))
    requires recs != [] ==> !recs[|recs| - 1].padding
    requires recs == [] || maxPb == 0 || r.discard || SizeSum(g, recs) + RecordPb(g, r) <= maxPb
    ensures WithinLimit(g, maxPb, recs + pads + [r])
  {
    hide WithinAt, SizeSum, RecordPb;
    var all, n := recs + pads + [r], |recs|;
    assert all == recs + (pads + [r]);
    forall i | 0 <= i < |all| ensures WithinAt(g, maxPb, all, i) {
      if i < n {
        WithinPrefix(g, maxPb, recs, pads + [r], i);
      } else if i == n + |pads| {
        WithinLast(g, maxPb, recs, pads, r);
      } else {
        PaddingFree(g, maxPb, all, i);
      }
    }
  }

  lemma PaddingFree(g: Geometry, maxPb: nat, recs: seq<Record>, i: nat)
    requires i < |recs| && recs[i].padding
    ensures WithinAt(g, maxPb, recs, i)
  {
  }

  lemma PadsAreNone(pads: seq<Record>)
    requires pads == [] || (|pads| == 1 && pads[0].padding)
    ensures NonPadding(pads) == []
  {
    if pads != [] {
      assert pads[..0] == [];
    }
  }

  lemma WithinPadding(g: Geometry, maxPb: nat, recs: seq<Record>, pad: Record)
    requires WithinLimit(g, maxPb, recs) && pad.padding
    ensures WithinLimit(g, maxPb, recs + [pad])
  {
    hide WithinAt;
    var all := recs + [pad];
    forall i | 0 <= i < |all| ensures WithinAt(g, maxPb, all, i) {
      if i < |recs| {
        WithinPrefix(g, maxPb, recs, [pad], i);
      } else {
        PaddingFree(g, maxPb, all, i);
      }
    }
  }

  /** A request that is taken keeps the limit. */
  lemma TakenWithin(g: Geometry, maxPb: nat, h: Header, b: Bio)
    requires Layout(g, h) && ValidBio(b) && b.len > 0 && AddBio(g, h, b).1
    requires WithinLimit(g, maxPb, h.records) && EndsInRequest(h) && (h.records == [] || !TooLarge(g, maxPb, h, b))
    ensures var h2 := AddBio(g, h, b).0; WithinLimit(g, maxPb, h2.records) && EndsInRequest(h2)
  {
    AddBioAppends(g, h, b);
    var h2 := AddBio(g, h, b).0;
    var r := h2.records[|h2.records| - 1];
    var pads: seq<Record> :| h2.records == h.records + pads + [r] && (pads == [] || (|pads| == 1 && pads[0].padding));
    assert !r.padding && r.discard == b.discard && r.ioSize == b.len;
    hide WithinLimit, AddBio, SizeSum;
    WithinMore(g, maxPb, h.records, pads, r);
  }

  /** So does the padding that a refused one leaves. */
  lemma RefusedWithin(g: Geometry, maxPb: nat, h: Header, b: Bio)
    requires Layout(g, h) && ValidBio(b) && b.len > 0 && !AddBio(g, h, b).1 && WithinLimit(g, maxPb, h.records)
    ensures var h2 := AddBio(g, h, b).0; WithinLimit(g, maxPb, h2.records) && Refused(g, h2, b)
  {
    AddBioAppends(g, h, b);
    var h2 := AddBio(g, h, b).0;
    assert AddBio(g, h, b) == (h2, false);
    if h2 != h {
      assert h2.records == h.records + [h2.records[|h.records|]];
      hide WithinLimit, AddBio;
      WithinPadding(g, maxPb, h.records, h2.records[|h.records|]);
    }
  }

  // ---------------------------------------------------------------- all requests

  function AllPacks(st: Packing): seq<Pack> {
    if st.cur.Some? then st.packs + [st.cur.value] else st.packs
  }

  ghost predicate PackedWithin(g: Geometry, maxPb: nat, st: Packing) {
    && AllWithin(g, maxPb, AllPacks(st)) && EndsRight(g, maxPb, AllPacks(st))
    && (if st.cur.Some? then EndsInRequest(st.cur.value.header) && st.cur.value.bios != [] else st.packs == [])
  }

  lemma MorePacks(g: Geometry, maxPb: nat, ps: seq<Pack>, p: Pack)
    requires AllWithin(g, maxPb, ps) && EndsRight(g, maxPb, ps) && WithinLimit(g, maxPb, p.header.records)
    requires ps != [] ==> p.bios != [] && EndsFor(g, maxPb, ps[|ps| - 1], p.bios[0])
    ensures AllWithin(g, maxPb, ps + [p]) && EndsRight(g, maxPb, ps + [p])
  {
    hide WithinLimit, EndsFor;
  }

  lemma FewerPacks(g: Geometry, maxPb: nat, ps: seq<Pack>, p: Pack)
    requires AllWithin(g, maxPb, ps + [p]) && EndsRight(g, maxPb, ps + [p])
    ensures AllWithin(g, maxPb, ps) && EndsRight(g, maxPb, ps) && WithinLimit(g, maxPb, p.header.records)
    ensures ps != [] ==> p.bios != [] && EndsFor(g, maxPb, ps[|ps| - 1], p.bios[0])
  {
    var all := ps + [p];
    assert all[|ps|] == p && forall i | 0 <= i < |ps| :: all[i] == ps[i];
    hide WithinLimit, EndsFor;
  }

  /** The first request of a new pack. */
  lemma FirstWithin(g: Geometry, maxPb: nat, lsid: u64, b: Bio)
    requires Packable(g, b) && g.ring >= MAX_TOTAL_IO_SIZE && lsid + U16_SIZE < U64_SIZE
    ensures var h := AddBio(g, EmptyHeader(lsid), b).0; WithinLimit(g, maxPb, h.records) && EndsInRequest(h)
  {
    var e := EmptyHeader(lsid);
    assert Layout(g, e);
    FreshHeaderAccepts(g, lsid, b);
    if b.len > 0 {
      TakenWithin(g, maxPb, e, b);
    }
  }

  /** A new pack behind closed ones. */
  lemma NewWithin(g: Geometry, maxPb: nat, st: Packing, b: Bio)
    requires Packable(g, b) && g.ring >= MAX_TOTAL_IO_SIZE && st.latest + U16_SIZE < U64_SIZE
    requires AllWithin(g, maxPb, st.packs) && EndsRight(g, maxPb, st.packs)
    requires st.packs != [] ==> EndsFor(g, maxPb, st.packs[|st.packs| - 1], b)
    ensures PackedWithin(g, maxPb, StartPack(g, st, b))
  {
    FirstWithin(g, maxPb, st.latest, b);
    var p := StartPack(g, st, b).cur.value;
    assert p.bios == [b];
    hide AddBio, AllWithin, EndsRight, EndsFor, WithinLimit;
    MorePacks(g, maxPb, st.packs, p);
  }

  /** The open pack, perhaps with padding, is closed for the request. */
  lemma ClosedWithin(g: Geometry, maxPb: nat, st: Packing, b: Bio)
    requires st.cur.Some? && AllWithin(g, maxPb, AllPacks(st)) && EndsRight(g, maxPb, AllPacks(st))
    requires EndsFor(g, maxPb, st.cur.value, b)
    ensures Close(st).packs != [] && AllWithin(g, maxPb, Close(st).packs) && EndsRight(g, maxPb, Close(st).packs)
    ensures EndsFor(g, maxPb, Close(st).packs[|Close(st).packs| - 1], b)
  {
    var p := st.cur.value;
    var q := p.(zeroFlushOnly := p.header.records == []);
    FewerPacks(g, maxPb, st.packs, p);
    assert EndsFor(g, maxPb, q, b);
    hide AllWithin, EndsRight, EndsFor, WithinLimit;
    MorePacks(g, maxPb, st.packs, q);
  }

  /** The open pack changed: its header took more, its first request is the same. */
  lemma ChangedWithin(g: Geometry, maxPb: nat, st: Packing, p: Pack)
    requires st.cur.Some? && AllWithin(g, maxPb, AllPacks(st)) && EndsRight(g, maxPb, AllPacks(st))
    requires st.cur.value.bios != [] && p.bios != [] && p.bios[0] == st.cur.value.bios[0] && WithinLimit(g, maxPb, p.header.records)
    ensures AllWithin(g, maxPb, st.packs + [p]) && EndsRight(g, maxPb, st.packs + [p])
  {
    FewerPacks(g, maxPb, st.packs, st.cur.value);
    hide AllWithin, EndsRight, EndsFor, WithinLimit;
    MorePacks(g, maxPb, st.packs, p);
  }

  lemma LastWithin(g: Geometry, maxPb: nat, ps: seq<Pack>, p: Pack)
    requires AllWithin(g, maxPb, ps + [p])
    ensures WithinLimit(g, maxPb, p.header.records)
  {
    assert (ps + [p])[|ps|] == p;
    hide WithinLimit;
  }

  lemma OpenPack(g: Geometry, st: Packing, start: nat, bios: seq<Bio>)
    requires PackingOk(g, st, start, bios) && st.cur.Some? && Room(start, |st.packs| + 1)
    ensures Layout(g, st.cur.value.header) && st.cur.value.header.lsid + 2 * U16_SIZE < U64_SIZE
  {
    hide Chained;
  }

  lemma ClosedRoom(g: Geometry, st: Packing)
    requires st.cur.Some? && Layout(g, st.cur.value.header) && st.cur.value.header.lsid + 2 * U16_SIZE < U64_SIZE
    ensures Close(st).latest + U16_SIZE < U64_SIZE
  {
    NextIsExact(g, st.cur.value.header);
  }

  lemma StartRoom(g: Geometry, st: Packing, start: nat, bios: seq<Bio>)
    requires PackingOk(g, st, start, bios) && Room(start, |st.packs| + 1)
    ensures st.latest + U16_SIZE < U64_SIZE
  {
    hide PackOk, Chained;
  }

  /** Adding a request keeps both promises. */
  lemma AddWithin(g: Geometry, maxPb: nat, st: Packing, start: nat, bios: seq<Bio>, b: Bio)
    requires PackingOk(g, st, start, bios) && Packable(g, b) && PackedWithin(g, maxPb, st)
    requires g.ring >= MAX_TOTAL_IO_SIZE && Room(start, |st.packs| + 1)
    ensures PackedWithin(g, maxPb, AddToPacking(g, maxPb, st, b))
  {
    StartRoom(g, st, start, bios);
    if st.cur.None? {
      assert AllPacks(st) == [];
      hide PackingOk, Packable, PackedWithin, StartPack;
      NewWithin(g, maxPb, st, b);
    } else {
      OpenPack(g, st, start, bios);
      hide PackingOk, Packable, PackedWithin, StartPack, Close, Layout, Room, AddBio, AddToPacking;
      if MustStartPack(g, maxPb, st.cur.value, b) {
        MustWithin(g, maxPb, st, b);
      } else if AddBio(g, st.cur.value.header, b).1 {
        JoinWithin(g, maxPb, st, b);
      } else {
        RefuseWithin(g, maxPb, st, b);
      }
    }
  }

  lemma OpenLimit(g: Geometry, maxPb: nat, st: Packing)
    requires st.cur.Some? && PackedWithin(g, maxPb, st)
    ensures WithinLimit(g, maxPb, st.cur.value.header.records)
  {
    LastWithin(g, maxPb, st.packs, st.cur.value);
  }

  lemma MustWithin(g: Geometry, maxPb: nat, st: Packing, b: Bio)
    requires st.cur.Some? && Packable(g, b) && PackedWithin(g, maxPb, st) && g.ring >= MAX_TOTAL_IO_SIZE
    requires Layout(g, st.cur.value.header) && st.cur.value.header.lsid + 2 * U16_SIZE < U64_SIZE
    requires MustStartPack(g, maxPb, st.cur.value, b)
    ensures PackedWithin(g, maxPb, AddToPacking(g, maxPb, st, b))
  {
    ClosedRoom(g, st);
    assert EndsFor(g, maxPb, st.cur.value, b);
    hide EndsFor, AllWithin, EndsRight, Layout, Packable;
    ClosedWithin(g, maxPb, st, b);
    NewWithin(g, maxPb, Close(st), b);
    hide PackedWithin, StartPack, Close;
  }

  lemma JoinWithin(g: Geometry, maxPb: nat, st: Packing, b: Bio)
    requires st.cur.Some? && Packable(g, b) && PackedWithin(g, maxPb, st)
    requires Layout(g, st.cur.value.header) && !MustStartPack(g, maxPb, st.cur.value, b) && AddBio(g, st.cur.value.header, b).1
    ensures PackedWithin(g, maxPb, AddToPacking(g, maxPb, st, b))
  {
    var p := st.cur.value;
    OpenLimit(g, maxPb, st);
    LenPositive(g, b);
    TakenWithin(g, maxPb, p.header, b);
    hide AllWithin, EndsRight, Layout, Packable, WithinLimit, AddBio;
    ChangedWithin(g, maxPb, st, Join(p, AddBio(g, p.header, b).0, b));
  }

  lemma LenPositive(g: Geometry, b: Bio)
    requires Packable(g, b)
    ensures ValidBio(b) && (!b.flush ==> b.len > 0)
  {
  }

  lemma RefuseWithin(g: Geometry, maxPb: nat, st: Packing, b: Bio)
    requires st.cur.Some? && Packable(g, b) && PackedWithin(g, maxPb, st) && g.ring >= MAX_TOTAL_IO_SIZE
    requires Layout(g, st.cur.value.header) && st.cur.value.header.lsid + 2 * U16_SIZE < U64_SIZE
    requires !MustStartPack(g, maxPb, st.cur.value, b) && !AddBio(g, st.cur.value.header, b).1
    ensures PackedWithin(g, maxPb, AddToPacking(g, maxPb, st, b))
  {
    var p := st.cur.value;
    var p2 := p.(header := AddBio(g, p.header, b).0);
    var st2 := st.(cur := Some(p2));
    OpenLimit(g, maxPb, st);
    LenPositive(g, b);
    RefusedWithin(g, maxPb, p.header, b);
    AddBioKeepsLayout(g, p.header, b);
    AddBioTotals(g, p.header, b);
    ClosedRoom(g, st2);
    assert EndsFor(g, maxPb, p2, b);
    hide AllWithin, EndsRight, EndsFor, Layout, Packable, WithinLimit, Refused, AddBio;
    ChangedWithin(g, maxPb, st, p2);
    ClosedWithin(g, maxPb, st2, b);
    NewWithin(g, maxPb, Close(st2), b);
    hide PackedWithin, StartPack, Close;
  }

  lemma {:induction false} PrefixWithin(g: Geometry, maxPb: nat, start: u64, bios: seq<Bio>)
    requires g.ring >= MAX_TOTAL_IO_SIZE && Room(start, |bios|) && forall i | 0 <= i < |bios| :: Packable(g, bios[i])
    ensures PackedWithin(g, maxPb, PackPrefix(g, maxPb, start, bios))
    decreases |bios|
  {
    hide PackingOk, AddToPacking, Packable, Room, PackedWithin;
    if bios == [] {
      EmptyWithin(g, maxPb, start);
    } else {
      var n := |bios| - 1;
      RoomShrinks(start, |bios|, n);
      PackPrefixOk(g, maxPb, start, bios[..n]);
      PrefixWithin(g, maxPb, start, bios[..n]);
      var st := PackPrefix(g, maxPb, start, bios[..n]);
      RoomShrinks(start, |bios|, |st.packs| + 1);
      AddWithin(g, maxPb, st, start, bios[..n], bios[n]);
    }
  }

  lemma EmptyWithin(g: Geometry, maxPb: nat, start: u64)
    ensures PackedWithin(g, maxPb, PackPrefix(g, maxPb, start, []))
  {
  }

  /** The sizes of the packs. No request but the first of its pack takes the pack
      over max_logpack_pb, and no pack ends too early: only a flush, a request over
      the limit, a flush without data in the pack, or a header without room make a
      new one begin. */
  lemma PacksAreFull(g: Geometry, maxPb: nat, start: u64, bios: seq<Bio>)
    requires g.ring >= MAX_TOTAL_IO_SIZE && Room(start, |bios|) && forall i | 0 <= i < |bios| :: Packable(g, bios[i])
    ensures var ps := PackAll(g, maxPb, start, bios).packs;
      AllWithin(g, maxPb, ps) && EndsRight(g, maxPb, ps)
  {
    PrefixWithin(g, maxPb, start, bios);
    var st := PackPrefix(g, maxPb, start, bios);
    if st.cur.Some? {
      var p := st.cur.value;
      FewerPacks(g, maxPb, st.packs, p);
      hide AllWithin, EndsRight, WithinLimit, PackPrefix;
      SameEnds(g, maxPb, st.packs, p);
    }
  }

  lemma SameEnds(g: Geometry, maxPb: nat, ps: seq<Pack>, p: Pack)
    requires AllWithin(g, maxPb, ps) && EndsRight(g, maxPb, ps) && WithinLimit(g, maxPb, p.header.records)
    requires ps != [] ==> p.bios != [] && EndsFor(g, maxPb, ps[|ps| - 1], p.bios[0])
    ensures var q := p.(zeroFlushOnly := p.header.records == []);
      AllWithin(g, maxPb, ps + [q]) && EndsRight(g, maxPb, ps + [q])
  {
    hide WithinLimit, EndsFor;
    MorePacks(g, maxPb, ps, p.(zeroFlushOnly := p.header.records == []));
  }
}
