# WalB block device: verified model of the write-ahead log pipeline

WalB sends every write to a ring-buffer log device, acknowledges it once it is in the
log, and carries it to the data device later. This project models that path in Dafny
and proves what it is for: after a crash at any moment, replaying the log leaves the
data device as a prefix of the writes made it, and that prefix has everything that was
promised; until then every read sees every write.

To verify it: `dafny verify dfyconfig.toml`, with Dafny 4.11.

## How it is put together

* **Words, Checksum, LogRecord, Logpack, WritePack, PackLimit.** Integer widths, the
  checksum and its algebra, the on-disk header as words, the header builder, the packing of
  a list of requests into packs and the sizes of these packs. The builder, the packer and
  the checksum loops are imperative and proved against functions.
* **Disk, LogDevice, Submit, Redo, RoundTrip, Recovery, Restart, Detection.** Images, ring
  slots, sealed blocks, submission of packs into the ring, replay with truncation of a
  partly valid pack, what replay recovers from a damaged ring, and which damage it sees.
* **LogSide, Promises, FlushExact.** The log half of the pipeline as a step system:
  queueing, packing, submission, header and data completions, destaging in any order, the
  wait task, FUA flushes and header flushes, and the lsid counters.
* **Overlapped, OverlappedIo, DataSide.** The overlapped-write scheduler, first as the
  brute-force queue of sim/overlap/sim.py, then as the windowed scan of
  module/overlapped_io.c; and the data half of the pipeline with sector-by-sector I/O.
* **Pipeline, Crash, LsidOrder, Runs, Counterexamples.** Both halves together with
  garbage collection, checkpoints and the superblock; every run, every crash point.
* **Medium, Requests, Durability.** What each flush makes durable; the order of the
  requests; what an acknowledgement is worth after a crash.
* **DataProgress, Progress.** Nothing gets stuck: continuations of every run that bring
  everything through and give the ring back.
* **Lives, StaleHeader.** Life after life: each a run, a crash and a replay, on the log
  device that the replay before it left.
* **Pending, PendingIo, Reads, LaterReads.** The pending-data cache and the read path.
* **Sim.** The abstract protocol of sim/consistency/walb_algorithm.py.
* **TaskDispatch, Freeze, FreezeRuns.** The single-instance task protocol; freeze and
  melt, first on their counters and then on runs of the pipeline.
* **Edges.** Two places where a discard does not get through unharmed.
* **RbTree, RbInsert, RbErase, RbRemove, RbWalk, TreeMap, TreeCursor, Multimap, CellMap.**
  The pointer red-black tree over an explicit memory of nodes, the map, its cursor, the
  multimap, and the multimap of write wrappers. A view (a subtree and the path above it)
  stands for a place the C code has a pointer to. OverlappedIo and PendingIo run their
  windowed scans with the cursor over this structure.

## What is taken for granted

* No I/O error, no allocation failure other than the one dispatch retries, READ_ONLY
  never set; one superblock sync at a time.
* A physical block is written to the log medium as a whole or not at all. Blocks that are
  written but not flushed may reach the medium in any order, or be lost in a crash; a
  sector of the data device may, after a crash, hold anything it held since the last flush
  of that device.
* `Recovery.Detects`: no stale or torn block passes a checksum for the header or the data
  the log is to hold in its place, and no valid header with the end lsid lies behind the
  end of the log. The law of the checksum is proved, and
  with it that any damage of one word is seen; that other damage changes the sum of the
  words is taken for granted (`Detection.DetectsExactly`). What part of
  this is about headers of earlier lives is not a matter of checksums: it follows if the
  life began on a device without headers of lsids to come (`Lives.CleanDetects`), and
  without that it can fail (below).
* The ring has at least 65535 physical blocks and a request takes at most 32768 of them.
  Both are restrictions of the model: the source asserts at most 65535 sectors
  (module/logpack.c:122), which with blocks of more than one sector is at most 32768
  blocks. lsids stay below 2^64 (`Room`).
* Discards are modelled in the header layout only; the pipeline theorems are about writes
  and flushes.
* For the end-to-end read theorem, a head piece split off an already copied piece keeps
  its mark. The code leaves this to bio_split, which is not part of this model; what
  happens if it does not is `Pending.CutMarks` and `Pending.StaleHead`.

## Where the code does not meet what it states

* **written_lsid can pass permanent_lsid.** module/kern.h:333-342 asks for
  oldest <= prev_written <= written <= permanent <= flush <= completed <= latest. All links
  hold in every run but written <= permanent. That one fails if and only if garbage
  collection has gone over a pack that ends in padding right behind a FUA request and
  permanent_lsid still is the end of that request (`Runs.EveryRunCounts`;
  `Counterexamples.WrittenPassesPermanent` is a run that gets there).
* **A flush can be acknowledged too early.** A plain flush that is the first request of its
  batch relies on the header flush of its pack; pack_header_should_flush
  (module/io.c:457-460) drops that flush if any request of the pack is FUA, and the flush
  for the FUA request comes only after the first request is acknowledged. A run that comes
  to a plain flush while something acknowledged before it is not on the medium can go on to
  acknowledge it in that state if and only if the flush is the first of its batch and its
  pack holds a FUA request (`Runs.EveryRunFlushesExactly`; `Counterexamples.FlushNotKept`
  is such a run). All other flushes keep their promise, also in runs that have such packs.
* **A batch longer than the ring is never submitted.** create_logpack_list waits until the
  end of the whole batch is at most a ring length behind prev_written
  (module/io.c:964-988), and the packs of the batch itself cannot be written before they are
  submitted. From a state of any run some continuation brings everything through if and only
  if what is created and not yet submitted is no longer than the ring
  (`Progress.EveryRunCanEnd`); otherwise no step ever submits it.
* **Replay can run into the log of an earlier life.** execute_redo invalidates nothing
  behind the lsid it ends at, and the salt is read back unchanged from the superblock
  (module/walb.c:901). A pack that a crash left on the medium behind a lost one keeps a
  valid header. If the log of the next life ends just where that pack begins, the replay
  after that life goes on into it and puts its old writes over newer ones, acknowledged
  FUA writes included. As long as inside the live log stale blocks are told from true ones,
  the device is recovered if and only if replay does not end behind latest_lsid; with the
  live log intact that is so if and only if there is no header of that very lsid at
  latest_lsid with which replay gets further (`Crash.EveryRunRecoversExactly`).
  `StaleHeader.StaleHeaderReplayed` is such a pair of lives, with every checksum right, and
  `StaleHeader.StaleHeaderBites` shows it of every device with such a header. Lives are safe
  on a device that holds no header of an lsid still to come (`Lives.LivesAddUp`), and a life
  leaves such a device if and only if none of its own headers stands at or behind the lsid
  where its replay ended (`Lives.OneLife`).
* **lsid_local of a discard wraps to 0** if and only if the header already has the maximal
  total of 65535 (`Logpack.LsidLocalExact`). Two requests get there, whatever
  max_logpack_pb is: a write of 32768 blocks with 32767 blocks before the ring end, and a
  discard (`Edges.LsidLocalWraps`).
* **A fresh header refuses a request** if and only if it would cross the ring end and
  padding and request together exceed 65535 blocks; never for a request of at most 32768
  (`Logpack.FreshHeaderAccepts`). With 512-byte blocks the source lets requests of up to
  65535 blocks through to this place, where it only asserts success (module/io.c:1795).
* **Redo shifts the length of a discard** (module/redo.c:1023-1024) although it is in
  sectors already. A discard is replayed as it was made if and only if the data device
  takes no discards at all; otherwise its last sector is never discarded
  (`Edges.DiscardReplayed`).

## Model

| member | source | states |
|---|---|---|
| Crash.EveryRunRecovers | module/redo.c:1093-1236 | for every run from the start of the device, every state of it and every crash image: the data device after replay is the first image with the first m writes applied in order; m covers every write ever sent to the data device, every acknowledged FUA write and, for each acknowledged flush not of the excepted kind, all writes acknowledged before it; logging resumes right behind write m |
| Durability.EveryRunKeepsPromises | module/io.c:1949-2080 | for every run, every crash and the replay behind it: the first m writes are recovered, every acknowledged FUA write is among them, and for every acknowledged flush not of the excepted kind so is every write that had been acknowledged when the flush was handed in |
| Crash.CrashDuringRedo | module/redo.c:1145-1208 | a crash in the middle of replay, with any of the replayed sectors written or not, and a second replay give the outcome and the image of an undisturbed one |
| Crash.EveryRunRecoversExactly | module/redo.c:1093-1236 | without an assumption on what lies behind the end of the log: some prefix is recovered as above if and only if replay ends at or before latest_lsid; it ends behind it only if a header there takes it on, and with an intact log exactly then |
| Lives.LivesAddUp | module/walb.c:889-1010 | for any row of lives, each a run from where the last replay ended, a crash that keeps every block not submitted since, and a replay, and each begun on a device without headers of lsids to come: every replay recovers its life, and the data device holds exactly the kept writes of all lives in order |
| Lives.OneLife | module/redo.c:1093-1236 | one such life is recovered, and it leaves a device without headers of lsids to come if and only if none of its own headers stands at or behind the lsid where replay ended; so whenever replay reaches the end of the log |
| Lives.CleanDetects | module/redo.c:622-660 | if a life begins without headers of lsids to come, each block it crashes with is the old one or one of its own, and the checksum tells data from headers and from other data, then no stale header is accepted in the live log or at its end |
| Lives.StaysClean | module/redo.c:1093-1236 | a row of lives that begins on such a device stays on such devices as long as no life leaves a header behind the end of its replay |
| StaleHeader.StaleHeaderBites | module/redo.c:1145-1208 | on a device of one-sector blocks, whatever its ring of 200000 holds: if the end of a pack of one acknowledged FUA write of at most 32768 blocks falls on a header that takes replay on, there is a life with right checksums after which no prefix of its writes is what replay makes |
| StaleHeader.StaleHeaderReplayed | module/redo.c:1145-1208 | two lives in a row from an unwritten device, with right checksums, after which a sector holds an old write of the first life instead of the acknowledged FUA write of the second |
| Recovery.RedoRecovers | module/redo.c:682-908 | from any damaged log replay recovers exactly the first k requests, a block at or before request k is lost if there are more, and logging resumes right in the place of request k, or of its pack's header if nothing of that pack is left |
| Recovery.TruncationExact | module/redo.c:849-894 | truncating a header at its first bad request makes its total that record's lsid_local - 1 and its next lsid that record's lsid; the records kept are unchanged and the header is valid |
| Recovery.RedoFollows | module/redo.c:1145-1208 | whatever lies behind the log: replay of a damaged log recovers a prefix and stops at a lost block, or it recovers all of it and then does exactly what replay from the end of the log does |
| Recovery.ResumePoint | module/redo.c:830-908 | where logging resumes if a request is the first bad one of its pack: in its place, or in the place of the header if nothing of the pack is left |
| Recovery.RedoKeepsLog | module/redo.c:834-908 | replay of any log device rewrites at most one block of it: the header of a pack of which it kept some requests and not all, where it ends; in particular it leaves a pack of which nothing was kept, and all behind it |
| Detection.AcceptsExactly | module/redo.c:622-660 | replay takes a block for the header of an lsid if and only if its words have the type and this very lsid and either say that the pack is empty, or add up with the salt to 0 modulo 2^32, with at most one padding record and an end inside the 64-bit lsids |
| Detection.DamagedHeaderSeen | include/linux/walb/log_record.h:254-273 | the header block of any pack with one word changed is taken for no header at all |
| Detection.DetectsExactly | module/redo.c:793-800 | what stands in place of a request passes for its data if and only if the sums of the words agree modulo 2^32 |
| Detection.DamagedDataSeen | module/redo.c:793-800 | if one word of the data of a request is changed its record does not replay, and nothing of it is written |
| Restart.RedoAgain | module/redo.c:849-908 | replaying the log again after replay has truncated it gives the same requests, the same end and the same device |
| Redo.ExecuteRedo | module/redo.c:1093-1236 | the imperative replay loop, which rewrites truncated headers in place, computes the specification `RedoLog` |
| Submit.PackReplayRoundTrip | module/io.c:857-1010 | any list of requests packed by the builder and held intact by the ring: replay ends at the latest lsid if and only if no header there takes it on, and then the same writes come back in the same order |
| Submit.IntactReplay | module/redo.c:1145-1208 | replay of an intact log makes its writes in order and then what replay from its end makes; it ends at the end of the log if and only if no header there takes it on |
| Submit.SubmitPacks | module/io.c:1131-1189 | submission of chained packs leaves every block of every pack intact in the ring and touches only the slots of these packs |
| Submit.SubmitRequest | module/io.c:1256-1285 | every block of a request gets its part of the data, the rest of the last block stays as it was, and no other slot changes |
| RoundTrip.RecordsReplayed | module/redo.c:717-832 | replay of the records of a pack takes for each exactly its own blocks and yields its write, up to the first request with a damaged block |
| LogDevice.CalcChecksums | module/io.c:1064-1113 | the loop fills in the checksum of each request's own record, skipping padding, and the header's |
| Detection.SealedAddsUp | module/io.c:1064-1113 | in the sealed header each request's data, its checksum and the salt add up to 0 modulo 2^32, a discard has 0, and nothing else of a record changes |
| LogDevice.SlotInjective | include/linux/walb/log_device.h:103-113 | two lsids less than a ring length apart have different slots |
| LogDevice.ConsecutiveSlots | module/logpack.c:124-160 | the blocks of a request of any pack have consecutive slots and never go around the ring end: what padding is for |
| WritePack.PackAllOk | module/io.c:857-910 | packing conserves the requests and their order, chains the packs' lsids, leaves each pack well laid out and zero-size flushes alone, and asks for a log flush exactly if some request is a plain flush; the sizes of the packs are in PackLimit; the interval-triggered flush, the counters and the wait for room in the ring are in LogSide |
| PackLimit.PacksAreFull | module/io.c:365-385 | for every list of requests: in every pack each data request behind the first, with the blocks of all before it and before its own padding, stays within max_logpack_pb; and a pack ends only because the next request is a flush, would exceed that bound, comes after a zero-size flush, or is refused by the header |
| WritePack.CreateLogpackList | module/io.c:1731-1817 | the loop over the requests that updates the open pack computes `PackAll` |
| Logpack.AddBioKeepsLayout | module/logpack.c:78-189 | after any sequence of adds every record lies at 1 + the sizes before it, no data record crosses the ring end, padding ends at it, and no 16-bit total wraps |
| Logpack.LsidLocalExact | module/logpack.c:99-188 | lsid_local is the distance to the header's lsid if and only if the record is no discard added at total 65535, and 0 otherwise |
| Edges.LsidLocalWraps | module/io.c:1731-1817 | for every max_logpack_pb, packing two certain requests gives a pack whose third record has lsid_local 0 at a distance of 65536 |
| Edges.DiscardReplayed | module/redo.c:1012-1030 | the discard made by replay is the logged one if and only if the device takes no discards; a made one never covers the last sector |
| Logpack.FreshHeaderAccepts | module/logpack.c:124-171 | exactly when an empty header takes a request; always for at most 32768 blocks |
| PackLimit.TakesExactly | module/logpack.c:104-171 | exactly when a header takes a request: there is a free record for it and for the padding it needs, and the total with both stays within 65535 |
| PackLimit.RefusalLeaves | module/logpack.c:124-171 | a refused request leaves the padding up to the ring end if it needs it and the header still takes that, and nothing otherwise |
| Logpack.AddBioKeepsOnePadding | module/logpack.c:124-171 | with a ring of at least 65535 blocks a header has at most one padding record |
| Logpack.LogpackHeader.Add | module/logpack.c:78-189 | the method that fills the record array in place changes the header as the specification `AddBio` says |
| LogRecord.HeaderRoundTrip | include/linux/walb/log_record.h:35-101 | decoding the words of a header gives the header |
| LogRecord.RecordOnDisk | include/linux/walb/log_record.h:35-66 | in which words of the block each field of a record stands, little-endian, and its three flag bits |
| LogRecord.HeaderOnDisk | include/linux/walb/log_record.h:72-101 | in which words each field of the header stands; what follows the records is zero |
| LogRecord.MaxRecordsTight | include/linux/walb/log_record.h:149-154 | as many records fit into the block as max_n_log_record_in_sector says, and no more |
| LogRecord.SealedIsValid | include/linux/walb/log_record.h:217-273 | a header whose checksum is filled in passes the validity check with checksum and reads back |
| Checksum.SumConcat | include/linux/walb/checksum.h:24-40 | the sum of consecutive parts is the sum of the whole, however data is cut into segments |
| Checksum.SelfChecksum | include/linux/walb/checksum.h:51-67 | storing the checksum in a zero word makes the checksum of the whole 0 |
| Checksum.ChecksumLaw | include/linux/walb/checksum.h:24-67 | the checksum, the salt and the plain sum of all words add up to 0 modulo 2^32 |
| Checksum.TellsApart | include/linux/walb/checksum.h:24-67 | two pieces of data have the same checksum if and only if the sums of their words agree modulo 2^32, whatever the salt |
| Checksum.OneWordChanged | include/linux/walb/checksum.h:24-67 | changing exactly one word changes the checksum |
| Words.CapacityPbTight | include/linux/walb/block_size.h:86-92 | capacity_pb is the least number of blocks that holds the sectors |
| Words.CapacityRoundTrip | include/linux/walb/block_size.h:131-134 | capacity_pb of capacity_lb of p blocks is p |
| LogSide.StepInv | module/io.c:492-623 | every step of the submit task, the wait task, the flush calls and the device keeps the invariant of the log half: chained packs, the place of the wait task, issued and completed blocks, and what each flush covers; that the steps also get on is in Progress |
| Promises.PromisedStep | module/io.c:1914-2085 | every step keeps the promises: acknowledged FUA writes are below permanent, and each acknowledged flush outside the excepted kind has everything below its stamp on the medium |
| Medium.EveryFlushSnaps | module/io.c:2528-2557 | in every run the end of a flush makes durable exactly what was complete when this flush was begun, and takes permanent_lsid no further than completed_lsid was then |
| Medium.EveryRunMedium | module/io.c:2528-2557 | in every run a block becomes durable only by destaging or by the end of a flush that was begun when it was complete |
| Medium.BatchFlushes | module/io.c:926-948 | a batch moves flush_lsid up to completed_lsid if and only if a plain flush is in it or the interval asks for it; then its first pack and no other flushes with its header, unless it holds a FUA request |
| Progress.FlushAdvances | module/io.c:2549-2557 | the end of a flush takes permanent_lsid at least to the completed_lsid recorded when it was begun, and no step takes it back |
| FlushExact.FlushExactly | module/io.c:457-460 | for every state that satisfies the invariant and comes to a plain flush with something before it not on the medium: some continuation acknowledges it too early if and only if the flush is the first of its batch and its pack has a FUA request |
| Runs.EveryRunFlushesExactly | module/io.c:926-948 | the same for every run of the whole pipeline and its continuations |
| Counterexamples.FlushNotKept | module/io.c:2034-2055 | a run that acknowledges a flush while an earlier acknowledged write is not on the medium |
| Overlapped.ReadyExactly | sim/overlap/sim.py:65-146 | an entry's count is 0 if and only if no overlapping entry was inserted before it |
| Overlapped.InsertKeeps | sim/overlap/sim.py:65-98 | insertion keeps every count equal to the number of earlier overlapping entries |
| Overlapped.DeleteKeeps | sim/overlap/sim.py:65-98 | so does deletion of a ready entry |
| Disk.OverlapExactly | module/bio_wrapper.h:225-232 | two writes overlap if and only if some sector is in both |
| Disk.CoveredExactly | module/bio_wrapper.h:240-248 | a write is overwritten by another if and only if all its sectors are |
| OverlappedIo.OverlappedData.CheckAndInsert | module/overlapped_io.c:22-96 | check and insert on the multimap over the red-black tree changes the queue of writes exactly as the brute-force insertion does; max_sectors becomes the length of the write if that is more |
| OverlappedIo.OverlappedData.DeleteAndNotify | module/overlapped_io.c:114-184 | deletion changes the queue as the brute-force deletion does, and returns exactly the writes whose count becomes 0, each once; max_sectors goes back to 0 with the last write |
| OverlappedIo.CountOverlapped | module/overlapped_io.c:41-72 | the cursor scan from the window's start to the write's end counts exactly the stored writes that overlap |
| OverlappedIo.WindowComplete | module/overlapped_io.c:41-72 | every stored write that overlaps the request lies in the window that is scanned |
| DataSide.DStepInv | module/io.c:641-777 | every step of the data half keeps the invariant: what is in flight waits for nothing, sectors are reached in log order, sent exactly once, pending writes cover what is not on the device |
| Runs.EveryRunSerializes | module/io.c:705-764 | in every run a write in flight has no overlapping earlier write that is not finished |
| Runs.EveryRunSendsOnce | module/io.c:705-764 | in every run no write is sent to the data device twice, and every write that left the overlap map was sent |
| Runs.EveryRunProgresses | module/io.c:2090-2174 | in every run the write the wait task waits for has count 0 and has been sent: the scheduler cannot deadlock |
| Runs.EveryRunShowsAllWrites | module/pending_io.c:233-295 | in every run the data device overlaid with the pending writes is the image of all writes inserted so far, applied in log order |
| Runs.EveryRunKeepsLog | module/io.c:960-988 | in every run no block from the superblock's written_lsid on is overwritten in the ring |
| Pipeline.RunInv | module/io.c:492-830 | every state of every run of all tasks, the checkpoint and the log cutter satisfies the joint invariant |
| Medium.EverySyncSnaps | module/super.c:38-77 | in every run the superblock gets the written_lsid from before the flush of the data device, that flush covers exactly what the device had taken when it was issued, and no other step moves either |
| Progress.EveryRunSyncs | module/super.c:79-83 | in every run prev_written after a sync is the written_lsid of the superblock on disk |
| DataProgress.DataDrains | module/io.c:641-830 | once the log of the acknowledged writes is permanent, some steps of the data half take all of them through the overlap map, the device and the pending data |
| Progress.EveryRunDrains | module/io.c:571-830 | from the last state of every run some continuation brings all that was submitted through: it is acknowledged, gone from the data side and at or before permanent_lsid, and prev_written == written is its end |
| Progress.EveryRunCanEnd | module/io.c:960-988 | from the last state of any run some continuation brings every packed write to the data device, with nothing pending, permanent_lsid at the end of the log and prev_written == written == latest, if and only if what is created and not submitted is no longer than the ring |
| Requests.EveryRunKeepsOrder | module/io.c:1681-1699 | in every run what has been handed in stays, in its order, and the log holds the writes of the first requests in that order |
| Requests.EveryRunServes | module/io.c:492-562 | in a ring of more than 65535 blocks: some continuation also serves every queued request, the log then holds all of them in the order they came, and the data device is what they make of it, if and only if what is created and not submitted is no longer than the ring |
| Runs.EveryRunCounts | module/kern.h:333-342 | the two chains of counters hold in every run, and written > permanent if and only if gc is past a pack with padding behind a final FUA request whose end permanent still is |
| Runs.EveryRunOrdersLsids | module/kern.h:333-342 | without such a pack the whole order holds in every run |
| Counterexamples.WrittenPassesPermanent | module/io.c:1355-1403 | a run that reaches written > permanent |
| Pending.CutPartition | module/bio_wrapper.c:258-362 | cutting the pieces of a read along a write keeps them an ordered partition of the range without gaps |
| Pending.CutMarks | module/bio_wrapper.c:293-357 | exactly which sectors are marked as copied after a cut, with and without the mark being kept by a split head |
| Pending.CompletedInside | module/bio_wrapper.c:369-386 | every piece that is completed without device I/O lies inside a pending write |
| PendingIo.ReadBio.EndioCopied | module/bio_wrapper.c:369-386 | exactly the marked pieces of the list are ended, in their order and each once; the others stay, in theirs |
| PendingIo.EachSectorOnce | module/bio_wrapper.c:369-386 | each sector of the read lies in exactly one piece that is ended or left, and in an ended one if and only if it is marked |
| Pending.StaleHead | module/bio_wrapper.c:293-357 | if a split head loses its mark, a read can return a stale sector |
| PendingIo.ReadBio.CopyOverlapped | module/bio_wrapper.c:258-362 | the loop that splits, marks and copies in place changes the pieces and the buffer as the specifications `Cut` and `CopyIn` say |
| PendingIo.PendingData.InsertAndDeleteOverwritten | module/pending_io.c:233-295 | the write is added, exactly the entries it overwrites entirely are dropped and marked, and the map stays sorted within max_sectors |
| PendingIo.DropOverwritten | module/pending_io.c:233-272 | the loop that deletes under its own cursor leaves exactly the entries that are not overwritten entirely, and marks exactly the others |
| PendingIo.PendingData.CheckAndCopy | module/pending_io.c:150-222 | all overlapping pending writes, found by the windowed scan, are applied to the buffer and the pieces in lsid order; then each sector of the read is in exactly one piece that is ended or left |
| Reads.InsertHolds | module/pending_io.c:282-295 | inserting into the map in memory is inserting into the pending data of the pipeline |
| Reads.DeleteHolds | module/io.c:2709-2729 | deleting from the map is deleting from the pending data |
| LaterReads.EveryRunReads | module/io.c:2310-2365 | for every run of the pipeline with its map: a read through pending_check_and_copy in one state, whose other sectors are read from the data device in any later state, returns for each sector the image of the first n writes, with n between the numbers inserted in the two states |
| Sim.PackStateManager.Execute | sim/consistency/walb_algorithm.py:646-686 | every candidate operation keeps both storages what the states of the packs say |
| Sim.Advance | sim/consistency/walb_algorithm.py:670-686 | the first pack that has not ended moves only over ended packs, only if the executed pack and all before it have ended, and then past it and as far as it can |
| Sim.CandidateExactly | sim/consistency/walb_algorithm.py:219-341 | an operation may be executed if and only if it has not been, the one it follows in its pack has, and no earlier pack that has not ended owes it its virtual write, its log or, when they overlap, its data I/O |
| Sim.NeverStuck | sim/consistency/walb_algorithm.py:275-341 | the first pack that has not ended always has an operation it may execute, and executing it sets exactly one bit that was not set |
| Sim.PackStateManager.DoCrashRecovery | sim/consistency/walb_algorithm.py:688-712 | from every state, recovery makes both storages the packs before the first one without complete log, applied in order |
| TaskDispatch.StepInv | module/pack_work.c:69-96 | every interleaving of enqueue, dispatch, failed allocation, dequeue and flag clear keeps: one live instance at most, and whatever waits has an instance or a dispatch call to come |
| TaskDispatch.OneInstance | module/pack_work.c:69-96 | in no run are two instances alive |
| TaskDispatch.NothingStranded | module/io.c:504-529 | when all dispatch calls have returned and all instances are over, everything enqueued was handled once and in order |
| TaskDispatch.NeverStuck | module/io.c:2631-2636 | as long as an item is not handled, some step other than an arrival is possible |
| TaskDispatch.AllCanBeHandled | module/io.c:2631-2636 | from every state of every run, without any new arrival, dispatch calls and tasks can handle all that has arrived and come to rest |
| Freeze.IoQueues.Push | module/io.c:1681-1699 | requests are never reordered or lost, whether they go to the frozen or to the submit queue |
| Freeze.IoQueues.Dequeue | module/io.c:513-529 | the oldest requests are taken, as many as there are up to the bulk limit |
| Freeze.IoQueues.Melt | module/io.c:2934-2947 | melting puts the frozen requests behind the queued ones, in order, unless the other freeze still holds |
| Freeze.FreezeIsComplete | module/io.c:3064-3092 | on the counters: when iocore_freeze returns, written equals latest and no write is queued, in hand or in flight |
| Freeze.FreezeCanReturn | module/io.c:3064-3092 | from every state of every run of the counters, whatever is queued or in flight, the tasks can bring iocore_freeze to its return |
| FreezeRuns.FreezeIsComplete | module/io.c:3064-3092 | on every run of the pipeline with its counters: when iocore_freeze returns, written_lsid is latest_lsid, the submit queue is empty, every write has been to the data device and none is pending |
| FreezeRuns.CountersFollow | module/io.c:504-623 | whenever the pipeline takes a step that the counters are to see, the counters can take theirs, and both still agree |
| FreezeRuns.EveryRunIsCounted | module/io.c:3064-3092 | every run of the pipeline has counters that come along to each of its states, where iocore_freeze may begin |
| RbTree.RbRoot.RotateLeft | tool/lib/rbtree.c:25-46 | the pointer updates turn the memory of a tree into that of the rotated tree, around any subtree, and leave everything else |
| RbInsert.InsertColor | tool/lib/rbtree.c:71-134 | the fix-up loop ends, and leaves a tree with black root, no red child of a red node, equal black heights, and the nodes in the same order |
| RbErase.EraseColor | tool/lib/rbtree.c:136-214 | the same for the loop that brings up a subtree one black node too low |
| RbRemove.Erase | tool/lib/rbtree.c:216-281 | rb_erase removes just this node from the order and keeps all rules; with two children its successor takes its place and colour |
| RbWalk.Next | tool/lib/rbtree.c:378-404 | rb_next is the next node in the order, or null behind the last |
| RbWalk.Prev | tool/lib/rbtree.c:406-428 | rb_prev is the one before, or null |
| TreeMap.Map.Add | module/treemap.c:660-702 | a new key is added at its place among the sorted items, an existing one is refused |
| TreeMap.Map.Del | module/treemap.c:728-746 | exactly the item with the key is removed |
| TreeMap.Map.Lookup | module/treemap.c:88-168 | each search flag finds the item it names in the sorted items, or null |
| TreeMap.PlaceIsSought | module/treemap.c:88-168 | the place each search flag names is the one item with that key, or the nearest one on the side the flag says; there is one such place at most |
| TreeCursor.Cursor.Search | module/treemap.c:845-883 | the cursor stands on the item asked for with both neighbours right, or is invalid if there is none |
| TreeCursor.Cursor.Next | module/treemap.c:890-921 | the cursor goes one item on, or stays behind the last one |
| TreeCursor.Cursor.Back | module/treemap.c:928-959 | the cursor goes one item back, or stays before the first one |
| TreeCursor.Cursor.Del | module/treemap.c:1100-1128 | the item is removed and the cursor stands on the one behind it, with both neighbours right |
| Multimap.Multi.Add | module/treemap.c:1188-1228 | a cell goes before all others of its key in the sorted row of cells; a pair that is there is refused |
| Multimap.MultiCursor.SearchGE | module/treemap.c:1462-1520 | the cursor stands on the first cell whose key is not below the one asked for |
| Multimap.MultiCursor.Next | module/treemap.c:1527-1579 | the cursor goes on by exactly one cell over the whole row |
| Multimap.MultiCursor.Del | module/treemap.c:1780-1819 | exactly this cell is removed, and the cursor stands on the one behind |
| Multimap.FlatLow | module/treemap.c:1462-1520 | searching the sorted keys and searching the row of all cells find the same place |

## Left out

- I/O errors, READ_ONLY mode and allocation failures: counters lose their meaning there (gc advances written for cancelled writes, a failed flush advances permanent).
- What a discard does to data: discards never enter the pending data.
- The kernel's own rbtree, which the module links against: tool/lib/rbtree.c is modelled in its place; rb_replace_node and the augmented-tree hooks are not used by treemap.c.
- Node memory: nodes live in a map from addresses to fields, so links and aliasing are explicit, but allocation and freeing are reduced to taking an address that is not in use.
- multimap_cursor_prev, multimap_del_key, map_empty and the remaining search flags of multimap_cursor_search: the same loops again.
- Cells of one key are a sequence and a cell is named by its place in it; hlist links are not modelled.
- WritePack.PackAllOk: does not speak of the interval-triggered flush, the update of flush and latest lsid, and the wait for room in the ring; these are the steps Create and SubmitNext of LogSide, and Runs.EveryRunKeepsLog is about the last one.
- Crash.EveryRunRecovers: says nothing of the writes before a flush whose own pack suppressed the header flush; FlushExact shows that nothing holds there.
- Progress.EveryRunCanEnd: says that some continuation gets there, not that every fair schedule of the tasks does; the same holds for the other theorems on what can be reached.
- LaterReads.EveryRunReads: takes that a split head keeps its mark, because bio_split is not part of this model.
- FreezeRuns.FreezeIsComplete: requests that a melt lets through are pushed one by one, not in one step.
- Lives.LivesAddUp: takes each replay as undisturbed; Crash.CrashDuringRedo is about a crash in the middle of one. oldest_lsid begins each life at its base; the code keeps the smaller one of the superblock.
- Redo.ExecuteRedo: reads a header with more records than a block can hold as if it ended with the block, and stops at the largest lsid instead of wrapping.
- ring_buffer_offset: slots are counted from the start of the ring.
- Read packs of sim/consistency/walb_algorithm.py: the model has its write packs and storages.
- Checkpoint timing and timer states, online reset, resize, uuid and salt generation, ioctl copying, sysfs, walbctl and stream logs: no property of the log protocol depends on them.
- tool/logpack.c: the userland twin of replay and truncation does what module/redo.c does.
