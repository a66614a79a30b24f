/** What replay recovers from a damaged log: the whole-run theorem about
    execute_redo of module/redo.c. */
module Recovery {
  import opened Words
  import opened Checksum
  import opened LogRecord
  import opened Logpack
  import opened WritePack
  import opened Disk
  import opened LogDevice
  import opened Redo
  import opened RoundTrip

  // ----------------------------------------------------------------- headers

  lemma SealedValid(g: Geometry, salt: u32, p: Pack)
    requires PackOk(g, p) && p.header.records != []
    ensures |p.header.records| <= MaxRecords(g.nLb)
    ensures var s := SealPack(g, salt, p);
      Decode(g.nLb, Encode(g.nLb, s)) == s && ValidBlock(g.nLb, salt, Encode(g.nLb, s))
  {
    LaidOutIsValid(g, p.header);
    var n := |p.header.records|;
    var h := p.header.(records := seq(n, i requires 0 <= i < n => SealedRecord(p, salt, i)));
    assert ValidHeader(h);
    SealedIsValid(g.nLb, salt, h);
  }

  /** An intact header block is accepted and reads back as the sealed header. */
  lemma IntactHeaderAccepted(c: Config, dev: seq<Block>, p: Pack)
    requires ValidImage(c.g, dev) && PackOk(c.g, p) && p.header.records != []
    requires |p.header.records| <= MaxRecords(c.g.nLb)
    requires dev[Slot(c.g, p.header.lsid)] == HeaderBlock(c.g, SealPack(c.g, c.salt, p))
    ensures Accepts(c, dev, p.header.lsid) && HeaderAt(c, dev, p.header.lsid) == SealPack(c.g, c.salt, p)
  {
    SealedValid(c.g, c.salt, p);
    FlattenChop(Encode(c.g.nLb, SealPack(c.g, c.salt, p)), c.g.nLb);
  }

  // -------------------------------------------------------------- truncation

  lemma {:induction false} SealedSizes(g: Geometry, salt: u32, p: Pack, i: nat)
    requires |p.header.records| <= MaxRecords(g.nLb) && i <= |p.header.records|
    ensures var recs := SealPack(g, salt, p).records;
      SizeSum(g, recs[..i]) == SizeSum(g, p.header.records[..i])
      && CountPadding(recs[..i]) == CountPadding(p.header.records[..i])
    decreases i
  {
    if i > 0 {
      var recs := SealPack(g, salt, p).records;
      SealedSizes(g, salt, p, i - 1);
      SizeSumStep(g, recs, i - 1);
      SizeSumStep(g, p.header.records, i - 1);
      CountStep(recs, i - 1);
      CountStep(p.header.records, i - 1);
    }
  }

  lemma FirstTakesRoom(g: Geometry, p: Pack, n: nat)
    requires PackOk(g, p) && NoDiscards(p) && 0 < n <= |p.header.records|
    ensures SizeSum(g, p.header.records[..n]) > 0
  {
    hide OnePadding;
    var r := p.header.records[0];
    assert RecordLaidOut(g, p.header, 0);
    SizeSumStep(g, p.header.records, 0);
    SizeSumMono(g, p.header.records, 1, n);
    CapacityPbTight(g.nLb, r.ioSize);
    if !r.padding {
      SealedRequest(g, 0, p, 0);
    }
  }

  /** The place of a request's record, in 16 bits without loss. */
  lemma RecordPlace(g: Geometry, p: Pack, n: nat)
    requires PackOk(g, p) && n < |p.header.records|
    ensures p.header.records[n].lsid == p.header.lsid + 1 + SizeSum(g, p.header.records[..n])
    ensures !p.header.records[n].discard ==>
              p.header.records[n].lsidLocal == 1 + SizeSum(g, p.header.records[..n]) < U16_SIZE
    ensures CountPadding(p.header.records[..n]) <= 1 && |p.header.records| <= MaxRecords(g.nLb)
    ensures CountPadding(p.header.records[..n]) <= n
    ensures p.header.sectorType == SECTOR_TYPE_LOGPACK && p.header.lsid + 1 + MAX_TOTAL_IO_SIZE < U64_SIZE
  {
    assert RecordLaidOut(g, p.header, n);
    CountMono(p.header.records, n, |p.header.records|);
    assert p.header.records[..|p.header.records|] == p.header.records;
    PaddingAtMostRecords(p.header.records[..n]);
  }

  lemma SmallMod(x: nat)
    requires x < U16_SIZE
    ensures x % U16_SIZE == x
  {
  }

  /** Cutting a built pack at its first bad request: the new total is exactly the
      bad record's local lsid minus one, so logging resumes right at the bad
      record; the kept records stay as they are, and the header stays valid. */
  lemma TruncationExact(c: Config, p: Pack, n: nat)
    requires PackOk(c.g, p) && NoDiscards(p) && 0 < n < |p.header.records| && !p.header.records[n].padding
    ensures |p.header.records| <= MaxRecords(c.g.nLb)
    ensures var s := SealPack(c.g, c.salt, p); var t := Truncated(c, s, n);
      && t.total == p.header.records[n].lsidLocal - 1 > 0
      && t.lsid == p.header.lsid && t.lsid + 1 + t.total == p.header.records[n].lsid
      && t.records == s.records[..n]
      && t.nPadding == CountPadding(p.header.records[..n])
      && ValidHeader(t)
  {
    hide PackOk, NoDiscards, NonPadding, LoggedOf, SizeSum, CountPadding, SealedRecord;
    RecordPlace(c.g, p, n);
    FirstTakesRoom(c.g, p, n);
    SealedRequest(c.g, c.salt, p, n);
    SealedSizes(c.g, c.salt, p, n);
    SmallMod(SizeSum(c.g, p.header.records[..n]));
    SmallMod(CountPadding(p.header.records[..n]));
    hide SealPack;
  }

  // ---------------------------------------------------------------- one pack

  /** Replay of one pack whose header is intact: it yields the writes of its
      first `to` requests; if that is not all of them, request `to` is damaged
      and the log is to go on at or before it. */
  ghost predicate PackReplayed(c: Config, dev: seq<Block>, p: Pack, d: Image, o: Outcome, to: nat)
    requires ValidImage(c.g, dev)
  {
    var ls := LoggedOf(c.g, p);
    && to <= |ls|
    && Apply(d, Writes(o.ios)) == Apply(d, WritesOf(ls)[..to])
    && (if !o.stop then to == |ls| && o.next == NextLsid(p.header) && o.dev == dev
        else to < |ls| && !RequestIntact(c, dev, ls[to]) && o.next == ResumeOf(c.g, p, to)
             && o.next <= ls[to].lsid && (to > 0 ==> End(ls[to - 1]) <= o.next))
  }

  /** Where logging resumes if request `to` of the pack is the first bad one: in its
      place, or in the place of the header if nothing of the pack is left. */
  function ResumeOf(g: Geometry, p: Pack, to: nat): nat
    requires to < |LoggedOf(g, p)|
  {
    if p.header.records != [] && !p.header.records[0].padding && to == 0 then p.header.lsid else LoggedOf(g, p)[to].lsid
  }

  lemma WholeList(c: Config, dev: seq<Block>, p: Pack)
    requires ValidImage(c.g, dev)
    ensures LeftAt(c, dev, p, 0) == PackBlocks(c, dev, p.header.lsid, p.header.total)
    ensures NonPadding(p.header.records[..0]) == []
  {
  }

  lemma AllRequests(g: Geometry, p: Pack)
    requires PackOk(g, p) && p.header.records != []
    ensures |NonPadding(p.header.records[..|p.header.records|])| == |LoggedOf(g, p)| == |p.bios| > 0
    ensures NextLsid(p.header) == p.header.lsid + 1 + p.header.total
  {
    assert p.header.records[..|p.header.records|] == p.header.records;
  }

  /** Where logging resumes behind the good part of a pack. */
  lemma ResumePoint(c: Config, p: Pack, n: nat)
    requires PackOk(c.g, p) && NoDiscards(p) && n < |p.header.records| && !p.header.records[n].padding
    requires |p.header.records| <= MaxRecords(c.g.nLb)
    ensures var ls, to := LoggedOf(c.g, p), |NonPadding(p.header.records[..n])|;
      var next := if n == 0 then p.header.lsid
                  else p.header.lsid + 1 + Truncated(c, SealPack(c.g, c.salt, p), n).total;
      && to < |ls| && next <= ls[to].lsid && (to > 0 ==> End(ls[to - 1]) <= next)
      && next == ResumeOf(c.g, p, to)
  {
    hide Layout, OnePadding, Truncated;
    SealedRequest(c.g, c.salt, p, n);
    var ls, to := LoggedOf(c.g, p), |NonPadding(p.header.records[..n])|;
    if n > 0 {
      TruncationExact(c, p, n);
      RecordPlace(c.g, p, n);
      if !p.header.records[0].padding {
        FirstCounts(p.header.records, n);
      }
      if to > 0 {
        LoggedOrder(c.g, p, to - 1, to);
      }
    } else {
      WholeList0(p);
    }
  }

  /** Behind a request's record in front no request is the first one. */
  lemma FirstCounts(recs: seq<Record>, n: nat)
    requires 0 < n <= |recs| && !recs[0].padding
    ensures |NonPadding(recs[..n])| > 0
  {
    CountStep(recs, 0);
    CountMono(recs, 1, n);
    assert recs[..0] == [];
  }

  lemma WholeList0(p: Pack)
    ensures |NonPadding(p.header.records[..0])| == 0
  {
  }

  lemma PackReplay(c: Config, dev: seq<Block>, p: Pack, d: Image) returns (to: nat)
    requires ValidImage(c.g, dev) && PackOk(c.g, p) && NoDiscards(p) && p.header.records != []
    requires PackDetects(c, dev, p) && AllFit(WritesOf(LoggedOf(c.g, p)), |d|)
    ensures |p.header.records| <= MaxRecords(c.g.nLb)
    ensures PackReplayed(c, dev, p, d, RedoPack(c, dev, SealPack(c.g, c.salt, p)), to)
  {
    hide PackOk, NoDiscards, PackDetects, LoggedOf, RedoRecords, NonPadding, RequestIntact, AllFit, ValidImage, LeftAt;
    CountsFit(c.g, p, |p.header.records|);
    var recs, h := p.header.records, SealPack(c.g, c.salt, p);
    RecordsReplayed(c, dev, p, 0, d);
    WholeList(c, dev, p);
    var r := RedoRecords(c, h.records, 0, PackBlocks(c, dev, h.lsid, h.total));
    to := |NonPadding(recs[..r.good])|;
    if r.good == |recs| {
      AllRequests(c.g, p);
    } else {
      ResumePoint(c, p, r.good);
    }
  }

  // ----------------------------------------------------------- the whole log

  /** All requests of a list of packs, in order, with their places. */
  function AllLogged(g: Geometry, ps: seq<Pack>): seq<Logged>
    decreases |ps|
  {
    if ps == [] then [] else LoggedOf(g, ps[0]) + AllLogged(g, ps[1..])
  }

  ghost predicate GoodPacks(g: Geometry, ps: seq<Pack>) {
    forall i | 0 <= i < |ps| :: PackOk(g, ps[i]) && NoDiscards(ps[i])
  }

  /** The crash left every block in `kept` intact; of the others nothing is known. */
  ghost predicate Kept(c: Config, dev: seq<Block>, ps: seq<Pack>, kept: set<nat>)
    requires ValidImage(c.g, dev) && GoodPacks(c.g, ps)
  {
    forall i, l: nat | 0 <= i < |ps| && HasBlock(c.g, ps[i], l) && l in kept ::
      |ps[i].header.records| <= MaxRecords(c.g.nLb) && BlockIntact(c.g, c.salt, dev, ps[i], l)
  }

  /** The assumption on the checksums: a stale or torn block never passes for
      the header or the data that the log is to hold there. */
  ghost predicate DetectsInside(c: Config, dev: seq<Block>, ps: seq<Pack>)
    requires ValidImage(c.g, dev) && GoodPacks(c.g, ps)
  {
    && (forall i | 0 <= i < |ps| && ps[i].header.records != [] && Accepts(c, dev, ps[i].header.lsid) ::
          |ps[i].header.records| <= MaxRecords(c.g.nLb)
          && dev[Slot(c.g, ps[i].header.lsid)] == HeaderBlock(c.g, SealPack(c.g, c.salt, ps[i])))
    && (forall i | 0 <= i < |ps| :: PackDetects(c, dev, ps[i]))
  }

  /** Nor does any block pass for a header right behind the end of the log. */
  ghost predicate Detects(c: Config, dev: seq<Block>, ps: seq<Pack>, end: nat)
    requires ValidImage(c.g, dev) && GoodPacks(c.g, ps)
  {
    DetectsInside(c, dev, ps) && !Accepts(c, dev, end)
  }

  /** Replay that comes to `lsid` goes on: there is a header of that very lsid, and
      with its pack replay gets further. */
  ghost predicate GoesOn(c: Config, dev: seq<Block>, lsid: nat)
    requires ValidImage(c.g, dev)
  {
    lsid < MAX_LSID && Accepts(c, dev, lsid) && RedoPack(c, dev, HeaderAt(c, dev, lsid)).next > lsid
  }

  /** Some block of the log up to the end of request `e` is not in `kept`. */
  ghost predicate Lost(g: Geometry, ps: seq<Pack>, kept: set<nat>, e: Logged) {
    exists i, l: nat :: 0 <= i < |ps| && HasBlock(g, ps[i], l) && l < End(e) && l !in kept
  }

  /** Replay recovers exactly the first `k` requests; if there are more, a block
      at or before the next one is lost; and logging resumes without a gap. */
  ghost predicate Recovers(c: Config, ps: seq<Pack>, end: nat, kept: set<nat>, d: Image, o: Outcome, k: nat) {
    var ls := AllLogged(c.g, ps);
    && k <= |ls|
    && Apply(d, Writes(o.ios)) == Apply(d, WritesOf(ls)[..k])
    && (if k == |ls| then o.next == end else StopsAt(c, ps, kept, o, k))
  }

  /** Replay stops in front of request `k` because of a lost block. */
  ghost predicate StopsAt(c: Config, ps: seq<Pack>, kept: set<nat>, o: Outcome, k: nat) {
    var ls := AllLogged(c.g, ps);
    && k < |ls| && Lost(c.g, ps, kept, ls[k]) && o.next <= ls[k].lsid && (k > 0 ==> End(ls[k - 1]) <= o.next)
    && exists i: nat, to: nat :: ResumesIn(c.g, ps, ls[k], o.next, i, to)
  }

  /** The request is number `to` of pack `i`, and logging resumes in its place or, if
      nothing of the pack is left, in the place of the pack's header. */
  ghost predicate ResumesIn(g: Geometry, ps: seq<Pack>, e: Logged, next: nat, i: nat, to: nat) {
    && i < |ps| && to < |LoggedOf(g, ps[i])| && e == LoggedOf(g, ps[i])[to]
    && (next == ResumeOf(g, ps[i], to) || (to == 0 && next == ps[i].header.lsid))
  }

  /** Replay either recovers the first `k` requests and stops in front of the next,
      or it recovers them all and then does what it does from the end of the log. */
  ghost predicate Replays(c: Config, dev: seq<Block>, ps: seq<Pack>, end: nat, kept: set<nat>, d: Image, o: Outcome, k: nat)
    requires ValidImage(c.g, dev)
  {
    var ls := AllLogged(c.g, ps);
    && k <= |ls|
    && if k < |ls| then Apply(d, Writes(o.ios)) == Apply(d, WritesOf(ls)[..k]) && StopsAt(c, ps, kept, o, k)
       else Passes(d, WritesOf(ls), o, RedoLog(c, dev, end))
  }

  /** All of `ws` and then what `more` does. */
  ghost predicate Passes(d: Image, ws: seq<Write>, o: Outcome, more: Outcome) {
    Apply(d, Writes(o.ios)) == Apply(Apply(d, ws), Writes(more.ios)) && o.next == more.next
  }

  lemma GoodTail(g: Geometry, ps: seq<Pack>)
    requires GoodPacks(g, ps) && ps != []
    ensures PackOk(g, ps[0]) && NoDiscards(ps[0]) && GoodPacks(g, ps[1..])
  {
  }

  lemma ChainTail(ps: seq<Pack>, start: nat, end: nat)
    requires Chained(ps, start, end) && ps != []
    ensures ps[0].header.lsid == start && Chained(ps[1..], NextLsid(ps[0].header), end)
  {
  }

  lemma KeptTail(c: Config, dev: seq<Block>, ps: seq<Pack>, kept: set<nat>)
    requires ValidImage(c.g, dev) && GoodPacks(c.g, ps) && ps != [] && Kept(c, dev, ps, kept)
    ensures GoodPacks(c.g, ps[1..]) && Kept(c, dev, ps[1..], kept)
  {
    hide PackOk, HasBlock, BlockIntact, ValidImage;
    assert forall i | 0 <= i < |ps[1..]| :: ps[1..][i] == ps[i + 1];
  }

  lemma InsideTail(c: Config, dev: seq<Block>, ps: seq<Pack>)
    requires ValidImage(c.g, dev) && GoodPacks(c.g, ps) && ps != [] && DetectsInside(c, dev, ps)
    ensures GoodPacks(c.g, ps[1..]) && DetectsInside(c, dev, ps[1..])
  {
    hide PackOk, PackDetects, Accepts, ValidImage;
    assert forall i | 0 <= i < |ps[1..]| :: ps[1..][i] == ps[i + 1];
  }

  lemma DetectsParts(c: Config, dev: seq<Block>, ps: seq<Pack>, end: nat)
    requires ValidImage(c.g, dev) && GoodPacks(c.g, ps)
    ensures Detects(c, dev, ps, end) <==> DetectsInside(c, dev, ps) && !Accepts(c, dev, end)
  {
  }

  lemma LostTail(g: Geometry, ps: seq<Pack>, kept: set<nat>, e: Logged)
    requires ps != [] && Lost(g, ps[1..], kept, e)
    ensures Lost(g, ps, kept, e)
  {
    hide HasBlock;
    var i, l: nat :| 0 <= i < |ps[1..]| && HasBlock(g, ps[1..][i], l) && l < End(e) && l !in kept;
    assert ps[1..][i] == ps[i + 1];
  }

  lemma ResumesTail(g: Geometry, ps: seq<Pack>, e: Logged, next: nat)
    requires ps != [] && exists i: nat, to: nat :: ResumesIn(g, ps[1..], e, next, i, to)
    ensures exists i: nat, to: nat :: ResumesIn(g, ps, e, next, i, to)
  {
    var i: nat, to: nat :| ResumesIn(g, ps[1..], e, next, i, to);
    assert ps[1..][i] == ps[i + 1];
    assert ResumesIn(g, ps, e, next, i + 1, to);
  }

  /** A header that is not accepted means that the header block is lost. */
  lemma HeaderLost(c: Config, dev: seq<Block>, ps: seq<Pack>, kept: set<nat>)
    requires ValidImage(c.g, dev) && GoodPacks(c.g, ps) && ps != [] && Kept(c, dev, ps, kept)
    requires ps[0].header.records != [] && !Accepts(c, dev, ps[0].header.lsid)
    ensures AllLogged(c.g, ps) != [] && ps[0].header.lsid <= AllLogged(c.g, ps)[0].lsid
    ensures Lost(c.g, ps, kept, AllLogged(c.g, ps)[0])
  {
    var p := ps[0];
    AllRequests(c.g, p);
    assert AllLogged(c.g, ps)[0] == LoggedOf(c.g, p)[0];
    var i := PlaceOf(c.g, p, 0);
    assert HasBlock(c.g, p, p.header.lsid);
    if p.header.lsid in kept {
      assert BlockIntact(c.g, c.salt, dev, p, p.header.lsid);
      IntactHeaderAccepted(c, dev, p);
    }
  }

  lemma DamagedBlock(c: Config, dev: seq<Block>, e: Logged) returns (k: nat)
    requires ValidImage(c.g, dev) && !RequestIntact(c, dev, e)
    ensures k < e.pb && !(Piece(c.g, e.w.data, k) <= dev[Slot(c.g, e.lsid + k)])
  {
    k :| 0 <= k < e.pb && !(Piece(c.g, e.w.data, k) <= dev[Slot(c.g, e.lsid + k)]);
  }

  /** A block that does not hold its part of a request was not kept. */
  lemma PieceLost(c: Config, dev: seq<Block>, ps: seq<Pack>, kept: set<nat>, to: nat, k: nat)
    requires ValidImage(c.g, dev) && GoodPacks(c.g, ps) && ps != [] && Kept(c, dev, ps, kept) && to < |LoggedOf(c.g, ps[0])|
    requires var e := LoggedOf(c.g, ps[0])[to];
      k < e.pb && HasBlock(c.g, ps[0], e.lsid + k) && !(Piece(c.g, e.w.data, k) <= dev[Slot(c.g, e.lsid + k)])
    ensures LoggedOf(c.g, ps[0])[to].lsid + k !in kept
  {
    hide GoodPacks, LoggedOf, HeaderBlock, SealPack, Piece, HasBlock;
    var e := LoggedOf(c.g, ps[0])[to];
    assert InRange(e, e.lsid + k);
  }

  /** A damaged request means that one of its blocks is lost. */
  lemma RequestLost(c: Config, dev: seq<Block>, ps: seq<Pack>, kept: set<nat>, to: nat)
    requires ValidImage(c.g, dev) && GoodPacks(c.g, ps) && ps != [] && Kept(c, dev, ps, kept)
    requires to < |LoggedOf(c.g, ps[0])| && !RequestIntact(c, dev, LoggedOf(c.g, ps[0])[to])
    ensures Lost(c.g, ps, kept, LoggedOf(c.g, ps[0])[to])
  {
    assert ps[0].header.records != [];
    hide PackOk, LoggedOf, HeaderBlock, SealPack, Piece, GoodPacks, Kept, ValidImage, RequestIntact;
    var p, e := ps[0], LoggedOf(c.g, ps[0])[to];
    var k := DamagedBlock(c, dev, e);
    assert InRange(e, e.lsid + k) && HasBlock(c.g, p, e.lsid + k);
    PieceLost(c, dev, ps, kept, to, k);
  }

  lemma NothingRecovered(c: Config, dev: seq<Block>, ps: seq<Pack>, start: nat, end: nat, kept: set<nat>, d: Image)
    requires ValidImage(c.g, dev) && GoodPacks(c.g, ps) && ps != [] && Kept(c, dev, ps, kept)
    requires ps[0].header.records != [] && start == ps[0].header.lsid && !Accepts(c, dev, start)
    ensures Replays(c, dev, ps, end, kept, d, Outcome([], start, true, dev), 0)
  {
    hide Lost;
    HeaderLost(c, dev, ps, kept);
    assert ResumesIn(c.g, ps, AllLogged(c.g, ps)[0], start, 0, 0) by {
      AllRequests(c.g, ps[0]);
    }
  }

  /** The first pack is replayed only in part. */
  lemma FirstCut(c: Config, dev: seq<Block>, ps: seq<Pack>, end: nat, kept: set<nat>, d: Image, o: Outcome, to: nat)
    requires ValidImage(c.g, dev) && GoodPacks(c.g, ps) && ps != [] && Kept(c, dev, ps, kept)
    requires PackReplayed(c, dev, ps[0], d, o, to) && o.stop
    ensures Replays(c, dev, ps, end, kept, d, o, to)
  {
    RequestLost(c, dev, ps, kept, to);
    hide Lost, LoggedOf, GoodPacks, Kept, ValidImage;
    var first, ls := LoggedOf(c.g, ps[0]), AllLogged(c.g, ps);
    assert WritesOf(ls)[..to] == WritesOf(first)[..to];
    assert ResumesIn(c.g, ps, ls[to], o.next, 0, to);
  }

  /** Writes after writes, up to `k` of the second part or all of it and `more`. */
  lemma ImageThen(d: Image, a: seq<Io>, b: seq<Io>, first: seq<Write>, second: seq<Write>, k: nat, more: seq<Write>)
    requires Apply(d, Writes(a)) == Apply(d, first) && k <= |second|
    requires Apply(Apply(d, Writes(a)), Writes(b)) == Apply(Apply(Apply(d, Writes(a)), second[..k]), more)
    ensures Apply(d, Writes(a + b)) == Apply(Apply(d, (first + second)[..|first| + k]), more)
  {
    WritesConcat(a, b);
    ApplyConcat(d, Writes(a), Writes(b));
    assert (first + second)[..|first| + k] == first + second[..k];
    ApplyConcat(d, first, second[..k]);
  }

  lemma ApplyNothing(d: Image)
    ensures Apply(d, []) == d
  {
  }

  /** The first pack is replayed in full and replay goes on. */
  lemma FirstWhole(c: Config, dev: seq<Block>, ps: seq<Pack>, end: nat, kept: set<nat>, d: Image, o: Outcome, rest: Outcome, k: nat)
    requires ValidImage(c.g, dev) && ps != [] && PackReplayed(c, dev, ps[0], d, o, |LoggedOf(c.g, ps[0])|) && !o.stop
    requires Replays(c, dev, ps[1..], end, kept, Apply(d, Writes(o.ios)), rest, k)
    requires forall j | 0 <= j < |LoggedOf(c.g, ps[0])| :: End(LoggedOf(c.g, ps[0])[j]) <= rest.next
    ensures Replays(c, dev, ps, end, kept, d, rest.(ios := o.ios + rest.ios), |LoggedOf(c.g, ps[0])| + k)
  {
    hide LoggedOf, ValidImage, Lost, RedoLog, Apply, Writes;
    var first, more := LoggedOf(c.g, ps[0]), AllLogged(c.g, ps[1..]);
    var n := |first|;
    WritesOfConcat(first, more);
    assert WritesOf(first)[..n] == WritesOf(first);
    if k < |more| {
      ApplyNothing(Apply(Apply(d, Writes(o.ios)), WritesOf(more)[..k]));
      ImageThen(d, o.ios, rest.ios, WritesOf(first), WritesOf(more), k, []);
      ApplyNothing(Apply(d, WritesOf(first + more)[..n + k]));
      LostTail(c.g, ps, kept, more[k]);
      ResumesTail(c.g, ps, more[k], rest.next);
    } else {
      assert WritesOf(more)[..k] == WritesOf(more) && WritesOf(first + more)[..n + k] == WritesOf(first + more);
      ImageThen(d, o.ios, rest.ios, WritesOf(first), WritesOf(more), k, Writes(RedoLog(c, dev, end).ios));
    }
  }

  lemma RedoForward(c: Config, dev: seq<Block>, lsid: nat)
    requires ValidImage(c.g, dev)
    ensures RedoLog(c, dev, lsid).next >= lsid
    decreases U64_SIZE - lsid
  {
    if lsid < MAX_LSID && Accepts(c, dev, lsid) {
      var o := RedoPack(c, dev, HeaderAt(c, dev, lsid));
      if !o.stop {
        RedoForward(c, dev, o.next);
      }
    }
  }

  lemma LastEnds(g: Geometry, p: Pack)
    requires PackOk(g, p) && NoDiscards(p)
    ensures forall j | 0 <= j < |LoggedOf(g, p)| :: End(LoggedOf(g, p)[j]) <= NextLsid(p.header)
    ensures p.header.records == [] ==> LoggedOf(g, p) == [] && NextLsid(p.header) == p.header.lsid
    ensures p.header.lsid < MAX_LSID
  {
    forall j | 0 <= j < |LoggedOf(g, p)| ensures End(LoggedOf(g, p)[j]) <= NextLsid(p.header) {
      var i := PlaceOf(g, p, j);
    }
  }

  lemma FitSplit(a: seq<Logged>, b: seq<Logged>, n: nat)
    requires AllFit(WritesOf(a + b), n)
    ensures AllFit(WritesOf(a), n) && AllFit(WritesOf(b), n)
  {
    forall i | 0 <= i < |a| ensures Fits(WritesOf(a)[i], n) {
      assert WritesOf(a)[i] == WritesOf(a + b)[i];
    }
    forall i | 0 <= i < |b| ensures Fits(WritesOf(b)[i], n) {
      assert WritesOf(b)[i] == WritesOf(a + b)[|a| + i];
    }
  }

  lemma RedoRejects(c: Config, dev: seq<Block>, lsid: nat)
    requires ValidImage(c.g, dev) && !Accepts(c, dev, lsid)
    ensures RedoLog(c, dev, lsid) == Outcome([], lsid, true, dev)
  {
  }

  lemma RedoAccepts(c: Config, dev: seq<Block>, p: Pack)
    requires ValidImage(c.g, dev) && |p.header.records| <= MaxRecords(c.g.nLb)
    requires p.header.lsid < MAX_LSID && Accepts(c, dev, p.header.lsid)
    requires HeaderAt(c, dev, p.header.lsid) == SealPack(c.g, c.salt, p)
    ensures var o, r := RedoPack(c, dev, SealPack(c.g, c.salt, p)), RedoLog(c, dev, p.header.lsid);
      if o.stop then r == o
      else var rest := RedoLog(c, dev, o.next); r == rest.(ios := o.ios + rest.ios)
  {
  }

  /** A damaged log as recovery takes it: the packs that were to be in it and what
      is left of them. */
  ghost predicate Damaged(c: Config, dev: seq<Block>, ps: seq<Pack>, start: nat, end: nat, kept: set<nat>, size: nat) {
    && ValidImage(c.g, dev) && GoodPacks(c.g, ps) && Chained(ps, start, end)
    && Kept(c, dev, ps, kept) && DetectsInside(c, dev, ps) && AllFit(WritesOf(AllLogged(c.g, ps)), size)
  }

  /** Taking the first pack off leaves a damaged log again. */
  lemma DamagedTail(c: Config, dev: seq<Block>, ps: seq<Pack>, start: nat, end: nat, kept: set<nat>, size: nat)
    requires Damaged(c, dev, ps, start, end, kept, size) && ps != []
    ensures Damaged(c, dev, ps[1..], NextLsid(ps[0].header), end, kept, size)
  {
    hide ValidImage, GoodPacks, Chained, Kept, DetectsInside, AllFit, WritesOf, AllLogged, PackOk, NoDiscards;
    GoodTail(c.g, ps);
    ChainTail(ps, start, end);
    KeptTail(c, dev, ps, kept);
    InsideTail(c, dev, ps);
    FirstFits(c.g, ps, size);
  }

  lemma DamagedFirst(c: Config, dev: seq<Block>, ps: seq<Pack>, start: nat, end: nat, kept: set<nat>, size: nat)
    requires Damaged(c, dev, ps, start, end, kept, size) && ps != []
    ensures ValidImage(c.g, dev) && GoodPacks(c.g, ps) && Kept(c, dev, ps, kept) && DetectsInside(c, dev, ps)
    ensures PackOk(c.g, ps[0]) && NoDiscards(ps[0]) && start == ps[0].header.lsid && ps[0].header.lsid < MAX_LSID
    ensures AllFit(WritesOf(LoggedOf(c.g, ps[0])), size)
    ensures ps[0].header.records == [] ==> LoggedOf(c.g, ps[0]) == [] && NextLsid(ps[0].header) == start
  {
    hide ValidImage, GoodPacks, Chained, Kept, DetectsInside, AllFit, WritesOf, AllLogged, PackOk, NoDiscards, LoggedOf, NextLsid;
    GoodTail(c.g, ps);
    ChainTail(ps, start, end);
    FirstFits(c.g, ps, size);
    LastEnds(c.g, ps[0]);
  }

  lemma ReplayFirst(c: Config, dev: seq<Block>, ps: seq<Pack>, start: nat, end: nat, kept: set<nat>, d: Image)
    returns (to: nat)
    requires ps != [] && ValidImage(c.g, dev) && Damaged(c, dev, ps, start, end, kept, |d|)
    requires ps[0].header.records != [] && Accepts(c, dev, start)
    ensures |ps[0].header.records| <= MaxRecords(c.g.nLb)
    ensures HeaderAt(c, dev, ps[0].header.lsid) == SealPack(c.g, c.salt, ps[0])
    ensures var o := RedoPack(c, dev, SealPack(c.g, c.salt, ps[0]));
      PackReplayed(c, dev, ps[0], d, o, to) && (!o.stop ==> o.next == NextLsid(ps[0].header))
  {
    hide ValidImage, GoodPacks, Kept, DetectsInside, AllFit, WritesOf, AllLogged, PackOk, NoDiscards, LoggedOf, NextLsid, Damaged, Accepts;
    hide RedoPack, SealPack, RedoLog, Replays, HeaderAt, PackReplayed, PackDetects, Writes, Apply;
    DamagedFirst(c, dev, ps, start, end, kept, |d|);
    AcceptedIsTrue(c, dev, ps);
    to := PackReplay(c, dev, ps[0], d);
    var o := RedoPack(c, dev, SealPack(c.g, c.salt, ps[0]));
    if !o.stop {
      ReplayedWhole(c, dev, ps[0], d, o, to);
    }
  }

  lemma FirstThenRest(c: Config, dev: seq<Block>, ps: seq<Pack>, start: nat, end: nat, kept: set<nat>, d: Image, to: nat, k: nat)
    requires ps != [] && ValidImage(c.g, dev) && Damaged(c, dev, ps, start, end, kept, |d|)
    requires |ps[0].header.records| <= MaxRecords(c.g.nLb) && Accepts(c, dev, start)
    requires HeaderAt(c, dev, ps[0].header.lsid) == SealPack(c.g, c.salt, ps[0])
    requires PackReplayed(c, dev, ps[0], d, RedoPack(c, dev, SealPack(c.g, c.salt, ps[0])), to)
    requires var o := RedoPack(c, dev, SealPack(c.g, c.salt, ps[0]));
      o.stop || Replays(c, dev, ps[1..], end, kept, Apply(d, Writes(o.ios)), RedoLog(c, dev, o.next), k)
    ensures Replays(c, dev, ps, end, kept, d, RedoLog(c, dev, start),
                     if RedoPack(c, dev, SealPack(c.g, c.salt, ps[0])).stop then to else |LoggedOf(c.g, ps[0])| + k)
  {
    hide ValidImage, GoodPacks, Kept, DetectsInside, AllFit, WritesOf, AllLogged, PackOk, NoDiscards, LoggedOf, NextLsid, Damaged, Accepts;
    hide RedoPack, SealPack, RedoLog, Replays, HeaderAt, PackReplayed, PackDetects, Writes, Apply;
    DamagedFirst(c, dev, ps, start, end, kept, |d|);
    FirstDone(c, dev, ps, end, kept, d, to, k);
  }

  lemma {:induction false} RecoversFrom(c: Config, dev: seq<Block>, ps: seq<Pack>, start: nat, end: nat, kept: set<nat>, d: Image)
    returns (k: nat)
    requires ValidImage(c.g, dev) && Damaged(c, dev, ps, start, end, kept, |d|)
    ensures Replays(c, dev, ps, end, kept, d, RedoLog(c, dev, start), k)
    decreases |ps|
  {
    hide ValidImage, Replays, RedoLog, RedoPack, SealPack, Accepts, Apply, Writes, LoggedOf, NextLsid, Lost, AllLogged;
    hide HeaderAt, PackReplayed;
    if ps == [] {
      k := 0;
      NothingLogged(c, dev, start, end, kept, d);
    } else {
      hide Damaged, GoodPacks, Kept, DetectsInside, AllFit, WritesOf, PackOk, NoDiscards;
      DamagedTail(c, dev, ps, start, end, kept, |d|);
      if ps[0].header.records == [] {
        DamagedFirst(c, dev, ps, start, end, kept, |d|);
        k := RecoversFrom(c, dev, ps[1..], start, end, kept, d);
        SkipFlush(c, dev, ps, end, kept, d, RedoLog(c, dev, start), k);
      } else if !Accepts(c, dev, start) {
        k := 0;
        DamagedFirst(c, dev, ps, start, end, kept, |d|);
        RedoRejects(c, dev, start);
        NothingRecovered(c, dev, ps, start, end, kept, d);
      } else {
        var to := ReplayFirst(c, dev, ps, start, end, kept, d);
        var o := RedoPack(c, dev, SealPack(c.g, c.salt, ps[0]));
        k := 0;
        if !o.stop {
          k := RecoversFrom(c, dev, ps[1..], o.next, end, kept, Apply(d, Writes(o.ios)));
        }
        FirstThenRest(c, dev, ps, start, end, kept, d, to, k);
        k := if o.stop then to else |LoggedOf(c.g, ps[0])| + k;
      }
    }
  }

  /** Replay of any damaged log, whatever lies behind its end: a prefix of the
      logged requests if some block was lost; otherwise all of them, followed by
      whatever replay finds at the end of the log. */
  lemma RedoFollows(c: Config, dev: seq<Block>, ps: seq<Pack>, start: nat, end: nat, kept: set<nat>, d: Image)
    returns (k: nat)
    requires ValidImage(c.g, dev) && GoodPacks(c.g, ps) && Chained(ps, start, end)
    requires Kept(c, dev, ps, kept) && DetectsInside(c, dev, ps) && AllFit(WritesOf(AllLogged(c.g, ps)), |d|)
    ensures Replays(c, dev, ps, end, kept, d, RedoLog(c, dev, start), k)
  {
    hide Replays, RedoLog, ValidImage, GoodPacks, Chained, Kept, DetectsInside, AllFit, WritesOf, AllLogged;
    k := RecoversFrom(c, dev, ps, start, end, kept, d);
  }

  lemma {:induction false} GoesOnMeans(c: Config, dev: seq<Block>, lsid: nat)
    requires ValidImage(c.g, dev)
    ensures GoesOn(c, dev, lsid) <==> RedoLog(c, dev, lsid).next > lsid
    ensures !GoesOn(c, dev, lsid) ==> RedoLog(c, dev, lsid).ios == [] && RedoLog(c, dev, lsid).dev == dev
  {
    if lsid < MAX_LSID && Accepts(c, dev, lsid) {
      var o := RedoPack(c, dev, HeaderAt(c, dev, lsid));
      if !o.stop {
        RedoForward(c, dev, o.next);
      }
    }
  }

  /** If replay does not go on from the end of the log, it recovers the log. */
  lemma ReplaysWell(c: Config, dev: seq<Block>, ps: seq<Pack>, end: nat, kept: set<nat>, d: Image, o: Outcome, k: nat)
    requires ValidImage(c.g, dev) && Replays(c, dev, ps, end, kept, d, o, k) && (!GoesOn(c, dev, end) || o.next <= end)
    ensures Recovers(c, ps, end, kept, d, o, k)
  {
    GoesOnMeans(c, dev, end);
    RedoForward(c, dev, end);
    var ls := AllLogged(c.g, ps);
    hide RedoLog, GoesOn, AllLogged, StopsAt;
    assert WritesOf(ls)[..|ls|] == WritesOf(ls);
  }

  /** Recovery from any damaged log. Whatever blocks were lost, replay yields
      exactly the writes of a prefix of the logged requests, in order; it stops
      only in front of a request that has a lost block at or before it; and it
      reports an lsid from which logging goes on without a gap. */
  lemma RedoRecovers(c: Config, dev: seq<Block>, ps: seq<Pack>, start: nat, end: nat, kept: set<nat>, d: Image)
    returns (k: nat)
    requires ValidImage(c.g, dev) && GoodPacks(c.g, ps) && Chained(ps, start, end)
    requires Kept(c, dev, ps, kept) && Detects(c, dev, ps, end) && AllFit(WritesOf(AllLogged(c.g, ps)), |d|)
    ensures Recovers(c, ps, end, kept, d, RedoLog(c, dev, start), k)
  {
    DetectsParts(c, dev, ps, end);
    hide Recovers, Replays, RedoLog, ValidImage, GoodPacks, Chained, Kept, Detects, DetectsInside, AllFit, WritesOf, AllLogged;
    k := RedoFollows(c, dev, ps, start, end, kept, d);
    assert !GoesOn(c, dev, end);
    ReplaysWell(c, dev, ps, end, kept, d, RedoLog(c, dev, start), k);
  }

  /** The first pack, then the rest if replay goes on. */
  lemma FirstDone(c: Config, dev: seq<Block>, ps: seq<Pack>, end: nat, kept: set<nat>, d: Image, to: nat, k: nat)
    requires ValidImage(c.g, dev) && GoodPacks(c.g, ps) && ps != [] && Kept(c, dev, ps, kept)
    requires PackOk(c.g, ps[0]) && NoDiscards(ps[0]) && |ps[0].header.records| <= MaxRecords(c.g.nLb)
    requires Accepts(c, dev, ps[0].header.lsid) && HeaderAt(c, dev, ps[0].header.lsid) == SealPack(c.g, c.salt, ps[0])
    requires PackReplayed(c, dev, ps[0], d, RedoPack(c, dev, SealPack(c.g, c.salt, ps[0])), to)
    requires var o := RedoPack(c, dev, SealPack(c.g, c.salt, ps[0]));
      o.stop || Replays(c, dev, ps[1..], end, kept, Apply(d, Writes(o.ios)), RedoLog(c, dev, o.next), k)
    ensures Replays(c, dev, ps, end, kept, d, RedoLog(c, dev, ps[0].header.lsid),
                     if RedoPack(c, dev, SealPack(c.g, c.salt, ps[0])).stop then to else |LoggedOf(c.g, ps[0])| + k)
  {
    hide PackOk, NoDiscards, LoggedOf, ValidImage, Kept, Replays, RedoLog, RedoPack, SealPack, Accepts, HeaderAt, GoodPacks, PackReplayed;
    LastEnds(c.g, ps[0]);
    RedoAccepts(c, dev, ps[0]);
    var o := RedoPack(c, dev, SealPack(c.g, c.salt, ps[0]));
    if o.stop {
      FirstCut(c, dev, ps, end, kept, d, o, to);
    } else {
      ReplayedWhole(c, dev, ps[0], d, o, to);
      RedoForward(c, dev, o.next);
      FirstWhole(c, dev, ps, end, kept, d, o, RedoLog(c, dev, o.next), k);
    }
  }

  lemma FirstFits(g: Geometry, ps: seq<Pack>, n: nat)
    requires ps != [] && AllFit(WritesOf(AllLogged(g, ps)), n)
    ensures AllFit(WritesOf(LoggedOf(g, ps[0])), n) && AllFit(WritesOf(AllLogged(g, ps[1..])), n)
  {
    FitSplit(LoggedOf(g, ps[0]), AllLogged(g, ps[1..]), n);
  }

  lemma ReplayedWhole(c: Config, dev: seq<Block>, p: Pack, d: Image, o: Outcome, to: nat)
    requires ValidImage(c.g, dev) && PackReplayed(c, dev, p, d, o, to) && !o.stop
    ensures to == |LoggedOf(c.g, p)| && o.next == NextLsid(p.header)
  {
  }

  lemma NothingLogged(c: Config, dev: seq<Block>, start: nat, end: nat, kept: set<nat>, d: Image)
    requires ValidImage(c.g, dev) && Chained([], start, end)
    ensures Replays(c, dev, [], end, kept, d, RedoLog(c, dev, start), 0)
  {
    hide RedoLog;
  }

  lemma SkipFlush(c: Config, dev: seq<Block>, ps: seq<Pack>, end: nat, kept: set<nat>, d: Image, o: Outcome, k: nat)
    requires ValidImage(c.g, dev)
    requires ps != [] && LoggedOf(c.g, ps[0]) == [] && Replays(c, dev, ps[1..], end, kept, d, o, k)
    ensures Replays(c, dev, ps, end, kept, d, o, k)
  {
    hide LoggedOf, Lost, RedoLog;
    assert AllLogged(c.g, ps) == AllLogged(c.g, ps[1..]);
    if k < |AllLogged(c.g, ps)| {
      LostTail(c.g, ps, kept, AllLogged(c.g, ps)[k]);
      ResumesTail(c.g, ps, AllLogged(c.g, ps)[k], o.next);
    }
  }

  lemma AcceptedIsTrue(c: Config, dev: seq<Block>, ps: seq<Pack>)
    requires ValidImage(c.g, dev) && GoodPacks(c.g, ps) && ps != [] && DetectsInside(c, dev, ps)
    requires ps[0].header.records != [] && Accepts(c, dev, ps[0].header.lsid)
    ensures |ps[0].header.records| <= MaxRecords(c.g.nLb) && PackDetects(c, dev, ps[0])
    ensures HeaderAt(c, dev, ps[0].header.lsid) == SealPack(c.g, c.salt, ps[0])
  {
    IntactHeaderAccepted(c, dev, ps[0]);
  }

  // ------------------------------------------------------ what replay rewrites

  /** Only the header block at `l` was rewritten: it keeps its first `n` records, some
      but not all, and replay ends where the shortened pack does. */
  ghost predicate CutAt(c: Config, dev: seq<Block>, o: Outcome, l: nat, n: nat)
    requires ValidImage(c.g, dev)
  {
    && Accepts(c, dev, l) && 0 < n < |HeaderAt(c, dev, l).records| <= MaxRecords(c.g.nLb)
    && o.dev == dev[Slot(c.g, l) := HeaderBlock(c.g, Sealed(c.g.nLb, c.salt, Truncated(c, HeaderAt(c, dev, l), n)))]
    && o.next == l + 1 + Truncated(c, HeaderAt(c, dev, l), n).total
  }

  lemma PackRewrites(c: Config, dev: seq<Block>, lsid: nat)
    requires ValidImage(c.g, dev) && Accepts(c, dev, lsid)
    ensures var o := RedoPack(c, dev, HeaderAt(c, dev, lsid)); o.dev == dev || exists n: nat :: CutAt(c, dev, o, lsid, n)
    ensures var o := RedoPack(c, dev, HeaderAt(c, dev, lsid)); !o.stop ==> o.dev == dev && o.next > lsid
  {
    var h := HeaderAt(c, dev, lsid);
    var r := RedoRecords(c, h.records, 0, PackBlocks(c, dev, h.lsid, h.total));
    var o := RedoPack(c, dev, h);
    hide RedoRecords, Truncated, HeaderBlock, Sealed, ValidBlock, PackBlocks;
    if 0 < r.good < |h.records| {
      assert CutAt(c, dev, o, lsid, r.good);
    }
  }

  /** Replay of any log device rewrites at most one block: the header of a pack of
      which it kept some records and not all. In particular a pack of which nothing was
      kept, and everything behind, stays on the device as it is. */
  lemma {:induction false} RedoKeepsLog(c: Config, dev: seq<Block>, lsid: nat)
    requires ValidImage(c.g, dev)
    ensures var o := RedoLog(c, dev, lsid);
      o.dev == dev || exists l: nat, n: nat :: lsid <= l < o.next && CutAt(c, dev, o, l, n)
    decreases U64_SIZE - lsid
  {
    hide CutAt, RedoPack, Accepts;
    if lsid < MAX_LSID && Accepts(c, dev, lsid) {
      var o := RedoPack(c, dev, HeaderAt(c, dev, lsid));
      PackRewrites(c, dev, lsid);
      if o.stop {
        if o.dev != dev {
          var n: nat :| CutAt(c, dev, o, lsid, n);
          CutBehind(c, dev, o, lsid, n);
        }
      } else {
        RedoKeepsLog(c, dev, o.next);
        var rest := RedoLog(c, dev, o.next);
        var all := RedoLog(c, dev, lsid);
        if all.dev != dev {
          var l: nat, n: nat :| o.next <= l < rest.next && CutAt(c, dev, rest, l, n);
          CutSame(c, dev, rest, all, l, n);
        }
      }
    }
  }

  lemma CutBehind(c: Config, dev: seq<Block>, o: Outcome, l: nat, n: nat)
    requires ValidImage(c.g, dev) && CutAt(c, dev, o, l, n)
    ensures l < o.next
  {
  }

  lemma CutSame(c: Config, dev: seq<Block>, o: Outcome, o2: Outcome, l: nat, n: nat)
    requires ValidImage(c.g, dev) && CutAt(c, dev, o, l, n) && o2.dev == o.dev && o2.next == o.next
    ensures CutAt(c, dev, o2, l, n)
  {
  }
}
