/** A crash during replay: replay can be run again from the start. */
module Restart {
  import opened Words
  import opened Checksum
  import opened LogRecord
  import opened Logpack
  import opened WritePack
  import opened Disk
  import opened LogDevice
  import opened Redo
  import opened RoundTrip
  import opened Recovery
  import opened Submit

  /** The header rewritten by replay lies between the start and the new end. */
  lemma {:induction false} RedoOnlySlots(c: Config, dev: seq<Block>, lsid: nat)
    requires ValidImage(c.g, dev)
    ensures OnlySlots(c.g, dev, RedoLog(c, dev, lsid).dev, lsid, RedoLog(c, dev, lsid).next)
    decreases U64_SIZE - lsid
  {
    if lsid < MAX_LSID && Accepts(c, dev, lsid) {
      var o := RedoPack(c, dev, HeaderAt(c, dev, lsid));
      PackOnlySlots(c, dev, HeaderAt(c, dev, lsid));
      if !o.stop {
        RedoOnlySlots(c, dev, o.next);
        RedoForward(c, dev, o.next);
        hide RedoPack, Accepts, HeaderAt, ValidImage;
        OnlySlotsJoin(c.g, dev, dev, RedoLog(c, dev, o.next).dev, lsid, lsid, o.next, RedoLog(c, dev, o.next).next);
      }
    }
  }

  lemma PackOnlySlots(c: Config, dev: seq<Block>, h: Header)
    requires ValidImage(c.g, dev) && |h.records| <= MaxRecords(c.g.nLb)
    ensures OnlySlots(c.g, dev, RedoPack(c, dev, h).dev, h.lsid, RedoPack(c, dev, h).next)
    ensures RedoPack(c, dev, h).next >= h.lsid
  {
  }

  lemma SameBlocks(c: Config, dev: seq<Block>, dev2: seq<Block>, lsid: nat, total: nat, lo: nat, hi: nat)
    requires ValidImage(c.g, dev) && ValidImage(c.g, dev2) && OnlySlots(c.g, dev, dev2, lo, hi)
    requires lsid + 1 + total <= lo <= hi <= lsid + c.g.ring
    ensures dev2[Slot(c.g, lsid)] == dev[Slot(c.g, lsid)]
    ensures PackBlocks(c, dev2, lsid, total) == PackBlocks(c, dev, lsid, total)
  {
    SlotKept(c.g, dev, dev2, lo, hi, lsid);
    forall k | 0 <= k < total ensures PackBlocks(c, dev2, lsid, total)[k] == PackBlocks(c, dev, lsid, total)[k] {
      SlotKept(c.g, dev, dev2, lo, hi, lsid + 1 + k);
    }
  }

  /** A pack read in full reads the same after a later header was rewritten. */
  lemma SamePack(c: Config, dev: seq<Block>, dev2: seq<Block>, p: Pack, lo: nat, hi: nat)
    requires ValidImage(c.g, dev) && ValidImage(c.g, dev2) && OnlySlots(c.g, dev, dev2, lo, hi)
    requires |p.header.records| <= MaxRecords(c.g.nLb)
    requires p.header.lsid + 1 + p.header.total <= lo <= hi <= p.header.lsid + c.g.ring
    ensures Accepts(c, dev2, p.header.lsid) == Accepts(c, dev, p.header.lsid)
    ensures HeaderAt(c, dev2, p.header.lsid) == HeaderAt(c, dev, p.header.lsid)
    ensures var h := SealPack(c.g, c.salt, p);
      !RedoPack(c, dev, h).stop ==> RedoPack(c, dev2, h) == RedoPack(c, dev, h).(dev := dev2)
  {
    SameBlocks(c, dev, dev2, p.header.lsid, p.header.total, lo, hi);
  }

  /** The good records in front of a bad one yield the same when the pack is cut
      to them. */
  lemma {:induction false} CutRecords(c: Config, recs: seq<Record>, i: nat, blocks: seq<Block>, n: nat)
    requires i <= n <= |recs| && RedoRecords(c, recs, i, blocks).good == n
    requires SizeSum(c.g, recs[..i]) <= SizeSum(c.g, recs[..n]) <= SizeSum(c.g, recs[..i]) + |blocks|
    ensures RedoRecords(c, recs[..n], i, blocks[..SizeSum(c.g, recs[..n]) - SizeSum(c.g, recs[..i])])
         == RedoRecords(c, recs, i, blocks)
    decreases n - i
  {
    if i < n {
      var m := SizeSum(c.g, recs[..n]) - SizeSum(c.g, recs[..i]);
      SizeSumStep(c.g, recs, i);
      SizeSumMono(c.g, recs, i + 1, n);
      CutRecord(c, recs[i], blocks, m);
      var o := RedoRecord(c, recs[i], blocks);
      hide RedoRecord, SizeSum;
      CutRecords(c, recs, i + 1, o.rest, n);
    }
  }

  lemma TakeSame(blocks: seq<Block>, n: nat, m: nat)
    requires n <= m <= |blocks|
    ensures blocks[..m][..n] == blocks[..n] && blocks[..m][n..] == blocks[n..][..m - n]
  {
  }

  lemma CutRecord(c: Config, r: Record, blocks: seq<Block>, m: nat)
    requires RecordPb(c.g, r) <= m <= |blocks| && RedoRecord(c, r, blocks).ok
    ensures var o, o2 := RedoRecord(c, r, blocks), RedoRecord(c, r, blocks[..m]);
      && |o.rest| == |blocks| - RecordPb(c.g, r)
      && o2 == o.(rest := o.rest[..m - RecordPb(c.g, r)])
  {
    CapacityPbTight(c.g.nLb, r.ioSize);
    TakeSame(blocks, RecordPb(c.g, r), m);
    hide Flatten, ChecksumOf, DataOf, DataIos, CapacityPb, DiscardIos;
    if !r.discard && r.ioSize > 0 {
      assert Min(CapacityPb(c.g.nLb, r.ioSize), |blocks|) == RecordPb(c.g, r);
      assert Min(CapacityPb(c.g.nLb, r.ioSize), |blocks[..m]|) == RecordPb(c.g, r);
    }
  }

  /** The records of a pack that replay stopped in. */
  function GoodCount(c: Config, dev: seq<Block>, p: Pack): nat
    requires ValidImage(c.g, dev) && |p.header.records| <= MaxRecords(c.g.nLb)
  {
    var h := SealPack(c.g, c.salt, p);
    RedoRecords(c, h.records, 0, PackBlocks(c, dev, h.lsid, h.total)).good
  }

  /** The header that replay writes when it stops in a pack reads back. */
  lemma CutHeaderReads(c: Config, dev: seq<Block>, p: Pack, n: nat)
    requires ValidImage(c.g, dev) && PackOk(c.g, p) && NoDiscards(p)
    requires |p.header.records| <= MaxRecords(c.g.nLb) && 0 < n < |p.header.records| && !p.header.records[n].padding
    ensures var t := Truncated(c, SealPack(c.g, c.salt, p), n); var s := Sealed(c.g.nLb, c.salt, t);
      var dev2 := dev[Slot(c.g, p.header.lsid) := HeaderBlock(c.g, s)];
      ValidImage(c.g, dev2) && Accepts(c, dev2, p.header.lsid) && HeaderAt(c, dev2, p.header.lsid) == s
  {
    TruncationExact(c, p, n);
    var t := Truncated(c, SealPack(c.g, c.salt, p), n);
    hide PackOk, NoDiscards, Truncated, SealPack;
    SealedIsValid(c.g.nLb, c.salt, t);
    FlattenChop(Encode(c.g.nLb, Sealed(c.g.nLb, c.salt, t)), c.g.nLb);
  }

  /** Its records yield the writes that replay had made of the pack. */
  lemma CutRecordsReplay(c: Config, dev: seq<Block>, p: Pack, n: nat)
    requires ValidImage(c.g, dev) && PackOk(c.g, p) && NoDiscards(p) && n == GoodCount(c, dev, p)
    requires |p.header.records| <= MaxRecords(c.g.nLb) && 0 < n < |p.header.records| && !p.header.records[n].padding
    requires NextLsid(p.header) - p.header.lsid <= c.g.ring
    ensures var h := SealPack(c.g, c.salt, p); var t := Truncated(c, h, n);
      var dev2 := dev[Slot(c.g, h.lsid) := HeaderBlock(c.g, Sealed(c.g.nLb, c.salt, t))];
      RedoRecords(c, t.records, 0, PackBlocks(c, dev2, h.lsid, t.total))
        == RedoRecords(c, h.records, 0, PackBlocks(c, dev, h.lsid, h.total))
  {
    hide PackOk, NoDiscards, SealPack, RedoRecords, SizeSum, CountPadding, PackBlocks, Truncated, ValidImage;
    CutSizes(c, p, n);
    var h := SealPack(c.g, c.salt, p);
    var blocks, t := PackBlocks(c, dev, h.lsid, h.total), Truncated(c, h, n);
    CutKeeps(c, h, n);
    BlocksPrefix(c, dev, h.lsid, h.total, t.total);
    CutRecords(c, h.records, 0, blocks, n);
    HeaderApart(c, dev, h.lsid, t.total, HeaderBlock(c.g, Sealed(c.g.nLb, c.salt, t)));
  }

  lemma CutKeeps(c: Config, h: Header, n: nat)
    requires n <= |h.records|
    ensures Truncated(c, h, n).records == h.records[..n] && SizeSum(c.g, h.records[..0]) == 0
  {
  }

  lemma BlocksPrefix(c: Config, dev: seq<Block>, lsid: nat, total: nat, m: nat)
    requires ValidImage(c.g, dev) && m <= total
    ensures |PackBlocks(c, dev, lsid, total)| == total
    ensures PackBlocks(c, dev, lsid, total)[..m] == PackBlocks(c, dev, lsid, m)
  {
  }

  /** After a header was cut short, replay accepts the pack as it is now. */
  lemma CutPackReplays(c: Config, dev: seq<Block>, p: Pack)
    requires ValidImage(c.g, dev) && PackOk(c.g, p) && NoDiscards(p) && p.header.records != []
    requires |p.header.records| <= MaxRecords(c.g.nLb) && NextLsid(p.header) - p.header.lsid <= c.g.ring
    requires PackDetects(c, dev, p)
    requires var o := RedoPack(c, dev, SealPack(c.g, c.salt, p)); o.stop && o.dev != dev
    ensures var o := RedoPack(c, dev, SealPack(c.g, c.salt, p));
      && Accepts(c, o.dev, p.header.lsid) && |HeaderAt(c, o.dev, p.header.lsid).records| <= MaxRecords(c.g.nLb)
      && RedoPack(c, o.dev, HeaderAt(c, o.dev, p.header.lsid)) == o.(stop := false)
  {
    var n := GoodCount(c, dev, p);
    BadIsRequest(c, dev, p);
    CutHeaderReads(c, dev, p, n);
    CutRecordsReplay(c, dev, p, n);
    hide PackOk, NoDiscards, PackDetects, SealPack, RedoRecords, Accepts, HeaderAt, ValidImage, PackBlocks;
  }

  lemma CutSizes(c: Config, p: Pack, n: nat)
    requires PackOk(c.g, p) && NoDiscards(p) && 0 < n < |p.header.records| && !p.header.records[n].padding
    requires |p.header.records| <= MaxRecords(c.g.nLb)
    ensures var h := SealPack(c.g, c.salt, p);
      && Truncated(c, h, n).total == SizeSum(c.g, h.records[..n]) < h.total
      && NextLsid(p.header) == p.header.lsid + 1 + h.total
  {
    hide OnePadding;
    TruncationExact(c, p, n);
    SealedSizes(c.g, c.salt, p, n);
    RecordPlace(c.g, p, n);
    SealedRequest(c.g, c.salt, p, n);
    SizeSumStep(c.g, p.header.records, n);
    SizeSumMono(c.g, p.header.records, n + 1, |p.header.records|);
    assert p.header.records[..|p.header.records|] == p.header.records;
    CapacityPbTight(c.g.nLb, p.header.records[n].ioSize);
  }

  lemma HeaderApart(c: Config, dev: seq<Block>, lsid: nat, total: nat, b: Block)
    requires ValidImage(c.g, dev) && |b| == c.g.nLb && total + 1 <= c.g.ring
    ensures PackBlocks(c, dev[Slot(c.g, lsid) := b], lsid, total) == PackBlocks(c, dev, lsid, total)
  {
    var dev2 := dev[Slot(c.g, lsid) := b];
    forall k | 0 <= k < total ensures PackBlocks(c, dev2, lsid, total)[k] == PackBlocks(c, dev, lsid, total)[k] {
      SlotInjective(c.g, lsid, lsid + 1 + k);
    }
  }

  lemma BadIsRequest(c: Config, dev: seq<Block>, p: Pack)
    requires ValidImage(c.g, dev) && PackOk(c.g, p) && NoDiscards(p) && PackDetects(c, dev, p)
    requires |p.header.records| <= MaxRecords(c.g.nLb)
    ensures var n := GoodCount(c, dev, p);
      n < |p.header.records| ==> !p.header.records[n].padding
  {
    var d := BigEnough(WritesOf(LoggedOf(c.g, p)));
    RecordsReplayed(c, dev, p, 0, d);
    WholeList(c, dev, p);
  }

  /** Some device that all the writes fit. */
  lemma {:induction false} BigEnough(ws: seq<Write>) returns (d: Image)
    ensures AllFit(ws, |d|)
    decreases |ws|
  {
    if ws == [] {
      d := [];
    } else {
      var n, zero: Sector := |ws| - 1, seq(SECTOR_WORDS, i => 0);
      var e := BigEnough(ws[..n]);
      d := e + seq(ws[n].pos + |ws[n].data|, i => zero);
      forall i | 0 <= i < |ws| ensures Fits(ws[i], |d|) {
        if i < n {
          assert Fits(ws[..n][i], |e|);
        }
      }
    }
  }

  /** Replay from `start` on `dev` leaves a log whose replay is the same. */
  ghost predicate Repeats(c: Config, dev: seq<Block>, start: nat)
    requires ValidImage(c.g, dev)
  {
    RedoLog(c, RedoLog(c, dev, start).dev, start) == RedoLog(c, dev, start)
  }

  lemma RepeatsCut(c: Config, dev: seq<Block>, p: Pack)
    requires ValidImage(c.g, dev) && PackOk(c.g, p) && NoDiscards(p) && p.header.records != []
    requires |p.header.records| <= MaxRecords(c.g.nLb) && NextLsid(p.header) - p.header.lsid <= c.g.ring
    requires PackDetects(c, dev, p) && p.header.lsid < MAX_LSID
    requires Accepts(c, dev, p.header.lsid) && HeaderAt(c, dev, p.header.lsid) == SealPack(c.g, c.salt, p)
    requires var o := RedoPack(c, dev, SealPack(c.g, c.salt, p)); o.stop && o.dev != dev && !Accepts(c, o.dev, o.next)
    ensures Repeats(c, dev, p.header.lsid)
  {
    RedoAccepts(c, dev, p);
    CutPackReplays(c, dev, p);
    var o := RedoPack(c, dev, SealPack(c.g, c.salt, p));
    RedoRejects(c, o.dev, o.next);
    hide PackOk, NoDiscards, PackDetects, ValidImage, Accepts, HeaderAt, RedoPack, SealPack;
    assert o.ios + [] == o.ios;
  }

  /** A pack that replay went through reads the same in the log it left. */
  lemma StillAccepted(c: Config, dev: seq<Block>, p: Pack, next: nat)
    requires ValidImage(c.g, dev) && |p.header.records| <= MaxRecords(c.g.nLb)
    requires next == p.header.lsid + 1 + p.header.total && RedoLog(c, dev, next).next <= p.header.lsid + c.g.ring
    requires Accepts(c, dev, p.header.lsid) && HeaderAt(c, dev, p.header.lsid) == SealPack(c.g, c.salt, p)
    requires !RedoPack(c, dev, SealPack(c.g, c.salt, p)).stop
    ensures var after, h := RedoLog(c, dev, next).dev, SealPack(c.g, c.salt, p);
      && Accepts(c, after, p.header.lsid) && HeaderAt(c, after, p.header.lsid) == h
      && RedoPack(c, after, h) == RedoPack(c, dev, h).(dev := after)
  {
    hide Accepts, HeaderAt, SealPack, RedoPack, OnlySlots, ValidImage, RedoLog;
    RedoOnlySlots(c, dev, next);
    RedoForward(c, dev, next);
    SamePack(c, dev, RedoLog(c, dev, next).dev, p, next, RedoLog(c, dev, next).next);
  }

  lemma RepeatsMeans(c: Config, dev: seq<Block>, start: nat)
    requires ValidImage(c.g, dev)
    ensures Repeats(c, dev, start) <==> RedoLog(c, RedoLog(c, dev, start).dev, start) == RedoLog(c, dev, start)
  {
  }

  lemma RepeatsOn(c: Config, dev: seq<Block>, p: Pack)
    requires ValidImage(c.g, dev) && p.header.records != []
    requires |p.header.records| <= MaxRecords(c.g.nLb) && p.header.lsid < MAX_LSID
    requires Accepts(c, dev, p.header.lsid) && HeaderAt(c, dev, p.header.lsid) == SealPack(c.g, c.salt, p)
    requires !RedoPack(c, dev, SealPack(c.g, c.salt, p)).stop && Repeats(c, dev, NextLsid(p.header))
    requires RedoLog(c, dev, NextLsid(p.header)).next <= p.header.lsid + c.g.ring
    ensures Repeats(c, dev, p.header.lsid)
  {
    hide Accepts, HeaderAt, SealPack, RedoPack, ValidImage, RedoLog, Repeats;
    var next := NextLsid(p.header);
    assert next == p.header.lsid + 1 + p.header.total;
    StillAccepted(c, dev, p, next);
    RedoAccepts(c, dev, p);
    var after := RedoLog(c, dev, next).dev;
    RedoAccepts(c, after, p);
    assert RedoLog(c, dev, p.header.lsid).dev == after;
    RepeatsMeans(c, dev, next);
    assert RedoLog(c, after, p.header.lsid) == RedoLog(c, dev, p.header.lsid);
    RepeatsMeans(c, dev, p.header.lsid);
  }

  /** Replay never runs past the end of the log. */
  lemma RedoInside(c: Config, dev: seq<Block>, ps: seq<Pack>, start: nat, end: nat)
    requires ValidImage(c.g, dev) && GoodPacks(c.g, ps) && Chained(ps, start, end) && Detects(c, dev, ps, end)
    ensures RedoLog(c, dev, start).next <= end
  {
    var d := BigEnough(WritesOf(AllLogged(c.g, ps)));
    var k := RedoRecovers(c, dev, ps, start, end, {}, d);
    var ls := AllLogged(c.g, ps);
    if k < |ls| {
      LoggedInside(c.g, ps, start, end, k);
    }
  }

  lemma LoggedAt(g: Geometry, ps: seq<Pack>, k: nat)
    requires ps != [] && k < |AllLogged(g, ps)|
    ensures var n := |LoggedOf(g, ps[0])|;
      if k < n then AllLogged(g, ps)[k] == LoggedOf(g, ps[0])[k]
      else k - n < |AllLogged(g, ps[1..])| && AllLogged(g, ps)[k] == AllLogged(g, ps[1..])[k - n]
  {
  }

  lemma {:induction false} LoggedInside(g: Geometry, ps: seq<Pack>, start: nat, end: nat, k: nat)
    requires GoodPacks(g, ps) && Chained(ps, start, end) && k < |AllLogged(g, ps)|
    ensures start <= AllLogged(g, ps)[k].lsid <= End(AllLogged(g, ps)[k]) <= end
    decreases |ps|
  {
    GoodTail(g, ps);
    ChainTail(ps, start, end);
    PackStarts(ps, start, end, 0);
    LoggedAt(g, ps, k);
    hide PackOk, NoDiscards, LoggedOf, GoodPacks, Chained, NextLsid, AllLogged;
    var n := |LoggedOf(g, ps[0])|;
    if k < n {
      BetweenRequests(g, ps[0], k);
    } else {
      LoggedInside(g, ps[1..], NextLsid(ps[0].header), end, k - n);
    }
  }

  /** Replaying what replay left behind gives the same writes, the same end and
      leaves the log as it is. */
  lemma {:induction false} RedoAgain(c: Config, dev: seq<Block>, ps: seq<Pack>, start: nat, end: nat)
    requires ValidImage(c.g, dev) && GoodPacks(c.g, ps) && Chained(ps, start, end) && Detects(c, dev, ps, end)
    requires end <= start + c.g.ring
    requires var o := RedoLog(c, dev, start); o.dev == dev || !Accepts(c, o.dev, o.next)
    ensures Repeats(c, dev, start)
    decreases |ps|
  {
    hide PackOk, NoDiscards, PackDetects, ValidImage, Accepts, HeaderAt, RedoPack, SealPack, Detects, DetectsInside, GoodPacks;
    if ps == [] {
      EndRejected(c, dev, ps, end);
      RedoRejects(c, dev, start);
    } else if RedoLog(c, dev, start).dev != dev {
      var p := ps[0];
      GoodTail(c.g, ps);
      ChainTail(ps, start, end);
      DetectsParts(c, dev, ps, end);
      InsideTail(c, dev, ps);
      DetectsParts(c, dev, ps[1..], end);
      LastEnds(c.g, p);
      PackStarts(ps, start, end, 0);
      hide RedoLog, Chained, Repeats;
      if p.header.records == [] {
        RedoAgain(c, dev, ps[1..], start, end);
      } else {
        Accepting(c, dev, start);
        AcceptedIsTrue(c, dev, ps);
        RedoAccepts(c, dev, p);
        if RedoPack(c, dev, SealPack(c.g, c.salt, p)).stop {
          RepeatsCut(c, dev, p);
        } else {
          AllRequests(c.g, p);
          RedoAgain(c, dev, ps[1..], NextLsid(p.header), end);
          RedoInside(c, dev, ps[1..], NextLsid(p.header), end);
          RepeatsOn(c, dev, p);
        }
      }
    }
  }

  lemma EndRejected(c: Config, dev: seq<Block>, ps: seq<Pack>, end: nat)
    requires ValidImage(c.g, dev) && GoodPacks(c.g, ps) && Detects(c, dev, ps, end)
    ensures !Accepts(c, dev, end)
  {
  }

  lemma Accepting(c: Config, dev: seq<Block>, start: nat)
    requires ValidImage(c.g, dev) && RedoLog(c, dev, start).dev != dev
    ensures Accepts(c, dev, start)
  {
  }
}
