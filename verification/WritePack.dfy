/** Packing a list of writes into logpacks: create_logpack_list and
    writepack_add_bio_wrapper of module/io.c. */
module WritePack {
  import opened Words
  import opened LogRecord
  import opened Logpack

  /** struct pack: the header, the requests in it and its flags. */
  datatype Pack = Pack(header: Header, bios: seq<Bio>, zeroFlushOnly: bool, fua: bool)

  /** A packing in progress: the closed packs, the open one, the lsid of the
      next pack and whether the log device has to be flushed. */
  datatype Packing = Packing(packs: seq<Pack>, cur: Option<Pack>, latest: u64, isFlush: bool)
  datatype Option<T> = None | Some(value: T)

  /** is_pack_size_too_large */
  predicate TooLarge(g: Geometry, maxPb: nat, h: Header, b: Bio) {
    maxPb != 0 && !b.discard && BioPb(g, b) + h.total > maxPb
  }

  /** The request may not even be offered to the open pack. */
  predicate MustStartPack(g: Geometry, maxPb: nat, p: Pack, b: Bio) {
    p.header.records == [] || b.flush || TooLarge(g, maxPb, p.header, b)
  }

  function Next64(h: Header): u64 {
    if h.total == 0 && h.records == [] then h.lsid else Wrap64(h.lsid + 1 + h.total)
  }

  /** Closing the open pack: writepack_check_and_set_zeroflush and the new
      latest lsid. */
  function Close(st: Packing): Packing {
    match st.cur
    case None => st
    case Some(p) =>
      var zero := p.header.records == [];
      Packing(st.packs + [p.(zeroFlushOnly := zero)], None, Next64(p.header), st.isFlush || zero)
  }

  function Join(p: Pack, h: Header, b: Bio): Pack {
    p.(header := h, bios := p.bios + [b], fua := p.fua || b.fua)
  }

  /** A new pack for `b`. The source asserts that a fresh header takes it. */
  function StartPack(g: Geometry, st: Packing, b: Bio): Packing {
    var h := AddBio(g, EmptyHeader(st.latest), b).0;
    Packing(st.packs, Some(Join(Pack(EmptyHeader(st.latest), [], false, false), h, b)), st.latest,
            st.isFlush || (b.flush && !b.fua))
  }

  /** writepack_add_bio_wrapper */
  function AddToPacking(g: Geometry, maxPb: nat, st: Packing, b: Bio): Packing {
    match st.cur
    case None => StartPack(g, st, b)
    case Some(p) =>
      if MustStartPack(g, maxPb, p, b) then StartPack(g, Close(st), b)
      else
        var (h, ok) := AddBio(g, p.header, b);
        if ok then Packing(st.packs, Some(Join(p, h, b)), st.latest, st.isFlush || (b.flush && !b.fua))
        else StartPack(g, Close(st.(cur := Some(p.(header := h)))), b)
  }

  function PackPrefix(g: Geometry, maxPb: nat, latest: u64, bios: seq<Bio>): Packing
    decreases |bios|
  {
    if bios == [] then Packing([], None, latest, false)
    else AddToPacking(g, maxPb, PackPrefix(g, maxPb, latest, bios[..|bios| - 1]), bios[|bios| - 1])
  }

  /** The packs of create_logpack_list, the new latest lsid and the flush flag. */
  function PackAll(g: Geometry, maxPb: nat, latest: u64, bios: seq<Bio>): Packing {
    Close(PackPrefix(g, maxPb, latest, bios))
  }

  // ------------------------------------------------------------- the promises

  /** The records that stand for requests. */
  function NonPadding(recs: seq<Record>): seq<Record>
    decreases |recs|
  {
    if recs == [] then []
    else
      var last := recs[|recs| - 1];
      NonPadding(recs[..|recs| - 1]) + if last.padding then [] else [last]
  }

  predicate Describes(r: Record, b: Bio) {
    r.offset == b.pos && r.ioSize == b.len && r.discard == b.discard
  }

  /** A pack is laid out, its records describe its requests one to one and in
      order, a zero-size flush is alone, and a flush can only be first. */
  ghost predicate PackOk(g: Geometry, p: Pack) {
    && Layout(g, p.header) && OnePadding(g, p.header)
    && p.bios != [] && (forall b | b in p.bios :: ValidBio(b))
    && (p.fua <==> exists b :: b in p.bios && b.fua)
    && (forall j | 1 <= j < |p.bios| :: !p.bios[j].flush)
    && (if p.header.records == [] then |p.bios| == 1 && p.bios[0].len == 0
        else (forall b | b in p.bios :: b.len > 0)
             && |NonPadding(p.header.records)| == |p.bios|
             && forall j | 0 <= j < |p.bios| :: Describes(NonPadding(p.header.records)[j], p.bios[j]))
  }

  function AllBios(packs: seq<Pack>): seq<Bio>
    decreases |packs|
  {
    if packs == [] then [] else AllBios(packs[..|packs| - 1]) + packs[|packs| - 1].bios
  }

  /** Each pack starts at the lsid where the one before it ends. */
  ghost predicate Chained(packs: seq<Pack>, start: nat, end: nat) {
    if packs == [] then start == end
    else
      && packs[0].header.lsid == start && NextLsid(packs[|packs| - 1].header) == end
      && forall i | 1 <= i < |packs| :: packs[i].header.lsid == NextLsid(packs[i - 1].header)
  }

  /** What holds between any two requests: `n` requests packed so far. */
  ghost predicate PackingOk(g: Geometry, st: Packing, start: nat, bios: seq<Bio>) {
    && (forall p | p in st.packs :: PackOk(g, p) && (p.zeroFlushOnly <==> p.header.records == []))
    && Chained(st.packs, start, st.latest)
    && start <= st.latest <= start + U16_SIZE * |st.packs|
    && (st.isFlush <==> exists b :: b in bios && b.flush && !b.fua)
    && match st.cur {
         case None => AllBios(st.packs) == bios
         case Some(p) =>
           && PackOk(g, p) && p.header.lsid == st.latest && !p.zeroFlushOnly
           && AllBios(st.packs) + p.bios == bios
       }
  }

  /** No lsid of the packing reaches the end of the 64-bit space. */
  ghost predicate Room(start: nat, n: nat) {
    start + U16_SIZE * (n + 2) < U64_SIZE
  }

  /** What the source needs of a request so that a fresh header takes it. */
  ghost predicate Packable(g: Geometry, b: Bio) {
    ValidBio(b) && (!b.discard ==> BioPb(g, b) <= 32768)
  }

  lemma {:induction false} NonPaddingAppend(a: seq<Record>, b: seq<Record>)
    ensures NonPadding(a + b) == NonPadding(a) + NonPadding(b)
    decreases |b|
  {
    if b == [] {
      assert a + b == a;
    } else {
      var ab := a + b;
      assert ab[..|ab| - 1] == a + b[..|b| - 1];
      NonPaddingAppend(a, b[..|b| - 1]);
    }
  }

  /** An accepted request adds exactly its own record to the non-padding ones. */
  lemma AcceptedDescribes(g: Geometry, h: Header, b: Bio)
    requires Layout(g, h) && ValidBio(b) && b.len > 0 && AddBio(g, h, b).1
    ensures var recs := AddBio(g, h, b).0.records;
      recs != [] && Describes(recs[|recs| - 1], b)
      && NonPadding(recs) == NonPadding(h.records) + [recs[|recs| - 1]]
  {
    AddBioAppends(g, h, b);
    var recs := AddBio(g, h, b).0.records;
    var init := recs[..|recs| - 1];
    var pads := init[|h.records|..];
    assert init == h.records + pads;
    NonPaddingAppend(h.records, pads);
  }

  /** A refused request adds none. */
  lemma RefusedDescribes(g: Geometry, h: Header, b: Bio)
    requires Layout(g, h) && ValidBio(b) && b.len > 0 && !AddBio(g, h, b).1
    ensures NonPadding(AddBio(g, h, b).0.records) == NonPadding(h.records)
    ensures h.records != [] ==> AddBio(g, h, b).0.records != []
  {
    AddBioAppends(g, h, b);
  }

  lemma NextIsExact(g: Geometry, h: Header)
    requires Layout(g, h)
    ensures Next64(h) == NextLsid(h) <= h.lsid + U16_SIZE
    ensures h.lsid <= NextLsid(h)
  {
  }

  lemma CloseOk(g: Geometry, st: Packing, start: nat, bios: seq<Bio>)
    requires PackingOk(g, st, start, bios) && st.cur.Some?
    ensures PackingOk(g, Close(st), start, bios) && Close(st).cur.None?
  {
    var p, st2 := st.cur.value, Close(st);
    NextIsExact(g, p.header);
    assert st2.packs[..|st2.packs| - 1] == st.packs;
    if p.header.records == [] {
      assert p.bios[0] in bios;
    }
  }

  lemma FirstBioOk(g: Geometry, lsid: u64, b: Bio)
    requires Packable(g, b) && g.ring >= MAX_TOTAL_IO_SIZE && lsid + U16_SIZE < U64_SIZE
    ensures var h := AddBio(g, EmptyHeader(lsid), b).0;
      PackOk(g, Pack(h, [b], false, b.fua)) && h.lsid == lsid
  {
    var e := EmptyHeader(lsid);
    assert Layout(g, e) && OnePadding(g, e);
    AddBioKeepsLayout(g, e, b);
    AddBioKeepsOnePadding(g, e, b);
    AddBioTotals(g, e, b);
    FreshHeaderAccepts(g, lsid, b);
    var h := AddBio(g, e, b).0;
    if b.len > 0 {
      AcceptedDescribes(g, e, b);
      assert NonPadding(e.records) == [];
    }
    assert [b][0] == b;
  }

  lemma StartPackOk(g: Geometry, st: Packing, start: nat, bios: seq<Bio>, b: Bio)
    requires PackingOk(g, st, start, bios) && st.cur.None? && Packable(g, b)
    requires g.ring >= MAX_TOTAL_IO_SIZE && Room(start, |st.packs|)
    ensures PackingOk(g, StartPack(g, st, b), start, bios + [b])
  {
    FirstBioOk(g, st.latest, b);
    assert StartPack(g, st, b).cur.value == Pack(AddBio(g, EmptyHeader(st.latest), b).0, [b], false, b.fua);
    FlushSeen(bios, b);
  }

  lemma FlushSeen(bios: seq<Bio>, b: Bio)
    ensures (exists c :: c in bios + [b] && c.flush && !c.fua)
       <==> (exists c :: c in bios && c.flush && !c.fua) || (b.flush && !b.fua)
  {
    assert b in bios + [b];
    assert forall c :: c in bios + [b] <==> c in bios || c == b;
  }

  lemma JoinedPackOk(g: Geometry, p: Pack, b: Bio)
    requires PackOk(g, p) && Packable(g, b) && g.ring >= MAX_TOTAL_IO_SIZE
    requires p.header.records != [] && !b.flush && AddBio(g, p.header, b).1
    ensures PackOk(g, Join(p, AddBio(g, p.header, b).0, b))
  {
    AddBioKeepsLayout(g, p.header, b);
    AddBioKeepsOnePadding(g, p.header, b);
    AcceptedDescribes(g, p.header, b);
    assert forall c :: c in p.bios + [b] <==> c in p.bios || c == b;
  }

  lemma PaddedPackOk(g: Geometry, p: Pack, b: Bio)
    requires PackOk(g, p) && Packable(g, b) && g.ring >= MAX_TOTAL_IO_SIZE
    requires p.header.records != [] && !b.flush && !AddBio(g, p.header, b).1
    ensures PackOk(g, p.(header := AddBio(g, p.header, b).0))
  {
    AddBioKeepsLayout(g, p.header, b);
    AddBioKeepsOnePadding(g, p.header, b);
    RefusedDescribes(g, p.header, b);
  }

  lemma JoinOk(g: Geometry, st: Packing, start: nat, bios: seq<Bio>, b: Bio)
    requires PackingOk(g, st, start, bios) && st.cur.Some? && Packable(g, b) && g.ring >= MAX_TOTAL_IO_SIZE
    requires st.cur.value.header.records != [] && !b.flush && AddBio(g, st.cur.value.header, b).1
    ensures PackingOk(g, Packing(st.packs, Some(Join(st.cur.value, AddBio(g, st.cur.value.header, b).0, b)),
                                 st.latest, st.isFlush), start, bios + [b])
  {
    var p := st.cur.value;
    JoinedPackOk(g, p, b);
    AddBioTotals(g, p.header, b);
    FlushSeen(bios, b);
    assert AllBios(st.packs) + (p.bios + [b]) == bios + [b];
  }

  lemma PadOk(g: Geometry, st: Packing, start: nat, bios: seq<Bio>, b: Bio)
    requires PackingOk(g, st, start, bios) && st.cur.Some? && Packable(g, b) && g.ring >= MAX_TOTAL_IO_SIZE
    requires st.cur.value.header.records != [] && !b.flush && !AddBio(g, st.cur.value.header, b).1
    ensures PackingOk(g, st.(cur := Some(st.cur.value.(header := AddBio(g, st.cur.value.header, b).0))), start, bios)
  {
    PaddedPackOk(g, st.cur.value, b);
    AddBioTotals(g, st.cur.value.header, b);
  }

  lemma AddToPackingOk(g: Geometry, maxPb: nat, st: Packing, start: nat, bios: seq<Bio>, b: Bio)
    requires PackingOk(g, st, start, bios) && Packable(g, b)
    requires g.ring >= MAX_TOTAL_IO_SIZE && Room(start, |st.packs| + 1)
    ensures var st2 := AddToPacking(g, maxPb, st, b);
      PackingOk(g, st2, start, bios + [b]) && |st2.packs| <= |st.packs| + 1 && st2.cur.Some?
  {
    if st.cur.None? {
      StartPackOk(g, st, start, bios, b);
    } else if MustStartPack(g, maxPb, st.cur.value, b) {
      CloseOk(g, st, start, bios);
      StartPackOk(g, Close(st), start, bios, b);
    } else if AddBio(g, st.cur.value.header, b).1 {
      JoinOk(g, st, start, bios, b);
    } else {
      var st2 := st.(cur := Some(st.cur.value.(header := AddBio(g, st.cur.value.header, b).0)));
      PadOk(g, st, start, bios, b);
      CloseOk(g, st2, start, bios);
      StartPackOk(g, Close(st2), start, bios, b);
    }
  }

  lemma EmptyPackingOk(g: Geometry, maxPb: nat, start: u64)
    ensures PackingOk(g, PackPrefix(g, maxPb, start, []), start, [])
  {
  }

  lemma RoomShrinks(start: nat, n: nat, m: nat)
    requires Room(start, n) && m <= n
    ensures Room(start, m)
  {
  }

  lemma {:induction false} PackPrefixOk(g: Geometry, maxPb: nat, start: u64, bios: seq<Bio>)
    requires g.ring >= MAX_TOTAL_IO_SIZE && Room(start, |bios|) && forall i | 0 <= i < |bios| :: Packable(g, bios[i])
    ensures var st := PackPrefix(g, maxPb, start, bios);
      && PackingOk(g, st, start, bios) && |st.packs| <= |bios| && (bios != [] ==> st.cur.Some?)
    decreases |bios|
  {
    hide PackingOk, AddToPacking, Packable, Room;
    if bios == [] {
      EmptyPackingOk(g, maxPb, start);
    } else {
      var n := |bios| - 1;
      RoomShrinks(start, |bios|, n);
      PackPrefixOk(g, maxPb, start, bios[..n]);
      assert bios == bios[..n] + [bios[n]];
      var st := PackPrefix(g, maxPb, start, bios[..n]);
      RoomShrinks(start, |bios|, |st.packs| + 1);
      AddToPackingOk(g, maxPb, st, start, bios[..n], bios[n]);
    }
  }

  /** The packing theorem. For every list of requests: the packs hold exactly
      these requests in this order; each pack starts where the one before it
      ends, the first at the old latest lsid, and the new latest lsid is the end
      of the last; every pack keeps its promises; and the log must be flushed
      exactly when some request is a flush without FUA. */
  lemma PackAllOk(g: Geometry, maxPb: nat, start: u64, bios: seq<Bio>)
    requires g.ring >= MAX_TOTAL_IO_SIZE && Room(start, |bios|) && forall i | 0 <= i < |bios| :: Packable(g, bios[i])
    ensures var st := PackAll(g, maxPb, start, bios);
      && AllBios(st.packs) == bios
      && Chained(st.packs, start, st.latest)
      && (forall p | p in st.packs :: PackOk(g, p) && (p.zeroFlushOnly <==> p.header.records == []))
      && (st.isFlush <==> exists b :: b in bios && b.flush && !b.fua)
      && start <= st.latest <= start + U16_SIZE * (|bios| + 1)
      && (bios != [] ==> st.packs != [])
  {
    PackPrefixOk(g, maxPb, start, bios);
    var st := PackPrefix(g, maxPb, start, bios);
    if st.cur.Some? {
      CloseOk(g, st, start, bios);
    }
  }

  /** The packing in memory: the list of closed packs and the open pack, whose
      header block is filled in place. */
  class Packer {
    const g: Geometry
    const maxPb: nat
    var packs: seq<Pack>
    var open: LogpackHeader?
    var openBios: seq<Bio>
    var openFua: bool
    var latest: u64
    var isFlush: bool

    ghost predicate Valid()
      reads this, open
    {
      open != null ==> open.Valid() && open.g == g
    }

    ghost function Repr(): set<object>
      reads this
    {
      if open == null then {this} else {this, open, open.record}
    }

    ghost function State(): Packing
      requires Valid()
      reads this, open, Repr()
    {
      Packing(packs, if open == null then None else Some(Pack(open.Value(), openBios, false, openFua)), latest, isFlush)
    }

    constructor (geometry: Geometry, maxLogpackPb: nat, latestLsid: u64)
      ensures Valid() && fresh(Repr()) && g == geometry && maxPb == maxLogpackPb
      ensures State() == Packing([], None, latestLsid, false)
    {
      g, maxPb, latest := geometry, maxLogpackPb, latestLsid;
      packs, open, openBios, openFua, isFlush := [], null, [], false, false;
    }

    /** Moves the open pack to the list of closed ones. */
    method CloseOpen()
      requires Valid()
      modifies this
      ensures Valid() && open == null && State() == Close(old(State()))
    {
      if open != null {
        var zero := open.nRecords == 0;
        packs, isFlush := packs + [Pack(open.Value(), openBios, zero, openFua)], isFlush || zero;
        latest := if open.total == 0 && zero then open.lsid else Wrap64(open.lsid + 1 + open.total);
        open, openBios, openFua := null, [], false;
      }
    }

    method StartNew(b: Bio)
      requires Valid() && open == null
      modifies this
      ensures Valid() && fresh(Repr() - {this}) && State() == StartPack(g, old(State()), b)
    {
      var h := new LogpackHeader(g, latest);
      var _ := h.Add(b);
      assert [] + [b] == [b];
      open, openBios, openFua, isFlush := h, [b], b.fua, isFlush || (b.flush && !b.fua);
    }

    /** writepack_add_bio_wrapper */
    method Add(b: Bio)
      requires Valid()
      modifies Repr()
      ensures Valid() && fresh(Repr() - old(Repr())) && State() == AddToPacking(g, maxPb, old(State()), b)
    {
      if open != null && open.nRecords > 0 && !b.flush
         && !(maxPb != 0 && !b.discard && CapacityPb(g.nLb, b.len) + open.total > maxPb) {
        var ok := open.Add(b);
        if ok {
          openBios, openFua, isFlush := openBios + [b], openFua || b.fua, isFlush || (b.flush && !b.fua);
          return;
        }
      }
      CloseOpen();
      StartNew(b);
    }
  }

  /** create_logpack_list: the packs for the requests, the new latest lsid and
      whether the log device has to be flushed. */
  method CreateLogpackList(g: Geometry, maxPb: nat, latest: u64, bios: seq<Bio>)
    returns (packs: seq<Pack>, next: u64, isFlush: bool)
    ensures Packing(packs, None, next, isFlush) == PackAll(g, maxPb, latest, bios)
  {
    var p := new Packer(g, maxPb, latest);
    for i := 0 to |bios|
      invariant p.Valid() && fresh(p.Repr()) && p.g == g && p.maxPb == maxPb
      invariant p.State() == PackPrefix(g, maxPb, latest, bios[..i])
    {
      assert bios[..i + 1][..i] == bios[..i];
      p.Add(bios[i]);
    }
    assert bios[..|bios|] == bios;
    p.CloseOpen();
    packs, next, isFlush := p.packs, p.latest, p.isFlush;
  }
}
