# Verified model of BAZALT's data plane

BAZALT reassembles hostile traffic into byte streams, parses HTTP incrementally, searches the
streams, stores them in a crash-consistent log and serves them. This project states what those
parts promise and proves it with Dafny.

| part | modules |
|---|---|
| TCP half-stream reassembly | `SequenceSpace`, `Intervals`, `Tiling`, `HalfStream`, `HalfStreamClosing`, `HalfStreamRuns`, `Reassembly` |
| IP fragments | `Datagram`, `DatagramOrder`, `FragmentCache`, `FragmentDelivery` |
| literal matcher | `LiteralSearch`, `LiteralSearchRuns`, `Scanner` |
| segment files | `RecordCodec`, `SegmentFile`, `SegmentWriter` |
| durability protocol | `Durability`, `DurabilityInvariant`, `DurabilitySteps`, `DurabilityRuns`, `MetadataSpool` |
| replay checkpoints | `ReplayCheckpoint`, `ReplayRuns` |
| capture prefilter | `Prefilter` |
| HTTP framing | `HttpFields`, `HttpFraming`, `HttpWire`, `HttpCap`, `HttpFinish`, `HttpReference`, `HttpSegments`, `HttpParser`, `HttpOverTcp` |
| API de-duplication | `RawSuppression` |
| flow table | `FlowTable`, `FlowBudget` |

Where the program updates state step by step (`TcpHalf`, the fragment cache, the match limiter and
scanner, the segment writer and recovery, the spool, the HTTP parser and chunk decoder, the flow
shard) the model is a class whose methods are proved equal to a specification on values; the
properties are then proved of that specification over whole runs. The multi-threaded protocols
(durability, replay, the flow budget) are transition systems: each thread moves by its own small
steps, in any order, with a crash possible between any two.

Check all proofs with `dafny verify dfyconfig.toml` (Dafny 4.11).

## What the proofs brought out

- Reassembly: between calls a pending FIN is always tentative and unacknowledged, because a
  validated or acknowledged one closes the half within the call. The branches that clip payload at a
  hard FIN (`src/flow/reassembly.rs:171-179`) therefore never remove a byte (`NotedSettled`).
- Reassembly: `finalize` does not drain all "known later bytes". It leaves behind exactly the
  segments that start beyond a tentative FIN; `FinalizeDrainsAllIff` is the exact condition and
  `FinalizeStrands` a run that ends so.
- Reassembly: bytes past the FIN marker can be delivered. `ClosedPastMarkerIff` says exactly when: a
  buffered segment straddles the marker, or starts right at a marker that is not confirmed. Once the
  FIN is consumed nothing is delivered any more.
- Fragments: an empty final fragment makes reassembly depend on the order. `OrderOutcome` says which
  orders survive and `OrderIndependentIff` when all do.
- Retention deletes rows by age, so "has its index row" is stated unless retention deleted that very
  row (`Durability.Projected`); `DeletedMeans` says that only retention ever does, and for age.
- A resumed replay starts with empty tails, so it misses literals that straddle the checkpoint, and
  only those: `ResumeLosesOnlyStraddling`, `ResumeLoses`. The checkpoint theorem speaks of the hits
  a run produced.
- Capture: the prefilter is conservative for live ingress and offline capture. In live egress it looks at
  the source port only while the gate after decoding accepts either port; `EgressLosesIff` says exactly
  by its bytes which frames are lost and `EgressExample` is one.
- HTTP: chunk-size lines are accepted more widely than RFC 9112, section 7.1 allows. Of an accepted line the part
  before the first semicolon is a chunk-size exactly if it has neither white space around it nor a plus sign in front
  (`AcceptedLineConformsIff`); what follows the semicolon need only be valid text (`ExtensionsIgnored`).
- HTTP: the feeds leave nothing to `finish`: it never emits a wire record, only decoded bodies.

## Model

Source paths are relative to the repository root. A row names the member whose contract states the
property.

| member | source | states |
|---|---|---|
| SequenceSpace.ExtendSeqExact | src/flow/reassembly.rs:572-579 | for a reference in or above the starting epoch the result never saturates below, is congruent to the wire number and is the only such position within half a turn of the reference (RFC 9293, section 3.4) |
| Tiling.TilesByte | src/flow/reassembly.rs:479-513 | in a tiled stream every known position lies in exactly one emitted chunk, at its offset, and in no gap |
| Tiling.TilesHole | src/flow/reassembly.rs:498-513 | in a tiled stream every unknown position lies in exactly one gap and in no chunk |
| Tiling.TilesWithin | src/flow/reassembly.rs:479-513 | no chunk and no gap reaches outside the tiled range |
| HalfStream.InsertKeepsFirst | src/flow/reassembly.rs:400-454 | first seen wins at every position: filing a segment keeps every byte already held and adds the new bytes only where nothing was held |
| HalfStream.InsertOverlap | src/flow/reassembly.rs:400-454 | the retransmission flag of an insertion is set if and only if some inserted position was already held |
| HalfStream.InsertAfter | src/flow/reassembly.rs:400-454 | segments above the inserted range stay untouched |
| HalfStream.GapAdvances | src/flow/reassembly.rs:498-513 | giving up a hole skips no byte known at that moment and never passes the FIN marker |
| HalfStream.FlushOneEmits | src/flow/reassembly.rs:515-543 | the first buffered segment, once due, delivers one chunk, exactly its not yet delivered bytes up to its end, first-seen copy included |
| HalfStream.FlushAdvances | src/flow/reassembly.rs:515-543 | flushing leaves no buffered byte that is contiguous with the stream |
| HalfStream.AckedFinCloses | src/flow/reassembly.rs:267-313 | a FIN below the peer's cumulative ACK closes the half once everything below it is given up |
| HalfStream.RecoverAckResolves | src/flow/reassembly.rs:267-313 | after ACK recovery no buffered byte waits for a hole below the peer's ACK, or a FIN is ready to be consumed |
| HalfStream.RecoverPressureAdvances | src/flow/reassembly.rs:456-477 | pressure recovery ends within both limits unless a FIN marker stopped it, and keeps every invariant and the tiling |
| HalfStream.RecoverTimeoutAdvances | src/flow/reassembly.rs:315-358 | timeout recovery gives up a hole only when it is old enough, and keeps every invariant and the tiling |
| HalfStream.TimeoutDeliversIff | src/flow/reassembly.rs:315-358 | a hole that is old enough is given up: the segment behind it is delivered whole if and only if it is not left to a FIN |
| HalfStream.NotedSettled | src/flow/reassembly.rs:138-185 | between calls no FIN is a hard bound, so the clip at a validated FIN never removes payload and a marker that stays lies at or beyond the payload's end |
| HalfStream.PayloadReaches | src/flow/reassembly.rs:187-230 | a payload that reaches the next position is delivered to its end unless the half closed |
| HalfStream.AcceptSettles | src/flow/reassembly.rs:110-238 | one accepted segment on an open half: the half settles, everything delivered since is tiled by the reported chunks and gaps, the accepted bytes are on record first copy first, and no further data follows a consumed FIN |
| HalfStream.AcceptFin | src/flow/reassembly.rs:138-157 | a FIN in sequence closes the half in the same call; otherwise the marker left is the tentative one |
| HalfStream.AcceptBounded | src/flow/reassembly.rs:456-477 | after every segment the buffered byte counter and the segment count are within their limits, although a FIN marker can stop the pressure loop early |
| HalfStream.AcknowledgeSettles | src/flow/reassembly.rs:244-265 | a cumulative ACK resolves every hole below it that bounds a known byte and keeps the half settled |
| HalfStream.FinalizeDrains | src/flow/reassembly.rs:364-392 | closing a flow accounts for everything it delivers and delivers exactly the buffered segments up to the first that starts beyond a tentative FIN |
| HalfStream.FinalizeDrainsAllIff | src/flow/reassembly.rs:364-392 | closing a flow delivers everything buffered if and only if no buffered segment starts beyond a tentative FIN |
| HalfStreamRuns.StepKeeps | src/flow/reassembly.rs:110-392 | every accept, acknowledge and finalize keeps the half settled and within its limits; the record afterwards is what was on record, plus the bytes the event itself presents to an open half in time, and nothing else |
| HalfStreamRuns.RunsDeliver | src/flow/reassembly.rs:110-392 | over every run of calls: chunks and gaps tile the delivered stream without overlap, every delivered byte is the one on record for its absolute position, no gap covers a known byte, nothing is emitted after the FIN is consumed, and the limits hold |
| HalfStreamRuns.RecordIsFirstSeen | src/flow/reassembly.rs:400-454 | after any run the record of a position is what it was before, else the byte of the first segment that presented it while the half was open and had not passed it, else nothing |
| HalfStreamRuns.DeliversFirstSeen | src/flow/reassembly.rs:110-392 | over every run from the first packet on each delivered byte is the one presented first for its position, and a position given up was presented by no segment in time |
| HalfStreamRuns.ClosedPastMarkerIff | src/flow/reassembly.rs:531-562 | when a call closes the half, the delivered stream goes past the FIN marker if and only if a segment buffered before starts below the marker and ends beyond it, or starts right at it and the call does not confirm the FIN |
| HalfStreamClosing.AcceptPasses | src/flow/reassembly.rs:110-238 | the same for an accepted segment: one that starts at the marker is delivered unless the FIN is in sequence |
| HalfStreamClosing.AcknowledgePasses | src/flow/reassembly.rs:244-265 | the same for a cumulative ACK: one that starts at the marker is delivered unless the ACK lies beyond the FIN |
| HalfStreamClosing.FinalizePasses | src/flow/reassembly.rs:364-392 | the same for closing a flow: one that starts at the marker is always delivered |
| HalfStreamRuns.WireRunIsTrueRun | src/flow/reassembly.rs:71-79 | a run on wrapped 32-bit numbers equals the run on true positions whenever each segment lies within half a turn |
| HalfStreamRuns.FinalizeStrands | src/flow/reassembly.rs:364-392 | from the first packet on, under all limits that admit four bytes: four bytes in sequence, four at offset twelve, a FIN at offset eight and the close leave the last four undelivered |
| HalfStreamRuns.AbuttedPasses | src/flow/reassembly.rs:364-392 | the same run with the last four bytes right at the FIN delivers them past it, although none straddles the marker |
| Reassembly.TcpHalf.Observe | src/flow/reassembly.rs:71-79 | sets the first expected position from the first packet and leaves an initialized half alone |
| Reassembly.TcpHalf.RstMatchesNext | src/flow/reassembly.rs:100-105 | an RST is accepted exactly at the next expected position |
| Reassembly.TcpHalf.ConsumeFinIfReady | src/flow/reassembly.rs:545-568 | the run after looking at the FIN is the specified one |
| Reassembly.TcpHalf.Emit | src/flow/reassembly.rs:479-496 | the run after delivering bytes in sequence is the specified one |
| Reassembly.TcpHalf.EmitGapTo | src/flow/reassembly.rs:498-513 | the run after giving up a hole is the specified one |
| Reassembly.TcpHalf.FlushOoo | src/flow/reassembly.rs:515-543 | the flush loop ends in the specified run |
| Reassembly.TcpHalf.InsertOooFirstSeen | src/flow/reassembly.rs:400-454 | the insertion loop over the interval map ends in the specified store, counter and flags |
| Reassembly.TcpHalf.RecoverKnownAck | src/flow/reassembly.rs:267-313 | the ACK recovery loop ends in the specified run |
| Reassembly.TcpHalf.RecoverOooPressure | src/flow/reassembly.rs:456-477 | the pressure loop ends, and in the specified run |
| Reassembly.TcpHalf.RecoverOooTimeout | src/flow/reassembly.rs:315-358 | the timeout step ends in the specified run |
| Reassembly.TcpHalf.AcceptPayload | src/flow/reassembly.rs:187-230 | the payload of a segment has the specified effect |
| Reassembly.TcpHalf.Accept | src/flow/reassembly.rs:110-238 | one segment from the wire: the new state and report are the specified ones, the half stays valid and within its limits |
| Reassembly.TcpHalf.Acknowledge | src/flow/reassembly.rs:244-265 | one cumulative ACK from the wire: the new state and report are the specified ones |
| Reassembly.TcpHalf.Finalize | src/flow/reassembly.rs:364-392 | closing: the new state and report are the specified ones |
| Datagram.JudgeSound | src/capture/fragment.rs:165-254 | whatever arrives, a kept datagram has disjoint pieces within the known length and is charged exactly 256 plus length plus 64 per piece |
| Datagram.OverlapDrops | src/capture/fragment.rs:201-236 | a fragment that shares a byte with any kept piece without being that piece again is rejected, although only its two neighbours are compared (RFC 5722) |
| Datagram.NoConflictKeeps | src/capture/fragment.rs:165-254 | a fragment that agrees with the known length and shares no byte with a kept piece is kept |
| DatagramOrder.DeliverOne | src/capture/fragment.rs:165-254 | in a proper split a piece seen before is a duplicate, a new one is added at its place, none is rejected |
| DatagramOrder.CompleteIff | src/capture/fragment.rs:275-303 | a partly received split is complete if and only if every piece is in, and then its bytes are the original datagram |
| DatagramOrder.OrderIndependent | src/capture/fragment.rs:136-303 | every delivery order of a proper split with any exact duplicates keeps the datagram, incomplete while a piece is missing, then exactly the original |
| DatagramOrder.OrderOutcome | src/capture/fragment.rs:194-199 | exactly which orders a cut survives whose last piece may be empty: those in which the piece that ends at the empty last one never arrives, not even again, after it; and then with exactly the original |
| DatagramOrder.OrderIndependentIff | src/capture/fragment.rs:194-199 | reassembly of a cut is independent of the order if and only if its last piece is not empty or is the only one |
| FragmentCache.FragmentCache.constructor | src/capture/fragment.rs:124-134 | an empty cache with at least 64 KiB and one datagram |
| FragmentCache.FragmentCache.RemoveKey | src/capture/fragment.rs:339-343 | forgets one datagram and exactly its charge |
| FragmentCache.FragmentCache.EvictOldest | src/capture/fragment.rs:326-337 | removes a datagram seen no later than any other, if there is one |
| FragmentCache.FragmentCache.Maintenance | src/capture/fragment.rs:305-324 | removes exactly the datagrams whose age reached the timeout, at most once a second |
| FragmentCache.FragmentCache.TryComplete | src/capture/fragment.rs:275-303 | hands over and forgets a complete datagram, leaves an incomplete one |
| FragmentCache.FragmentCache.EvictOverLimit | src/capture/fragment.rs:266-271 | the eviction loop ends within both limits and evicts oldest first and only while a limit was exceeded |
| FragmentCache.FragmentCache.Absorb | src/capture/fragment.rs:154-273 | the table after a well-formed fragment, and the outcome, on every path |
| FragmentCache.FragmentCache.Insert | src/capture/fragment.rs:136-273 | on every path the byte counter equals the sum of the charges, all pieces are disjoint and both limits hold; the new table and the outcome are stated exactly |
| FragmentCache.SumRemove | src/capture/fragment.rs:339-343 | the sum of charges does not depend on the order in which keys are taken out |
| FragmentCache.AccountedJudged | src/capture/fragment.rs:233-261 | replacing a datagram by its judged successor keeps the account exact |
| FragmentDelivery.StepDelivers | src/capture/fragment.rs:136-303 | one arrival through the cache completes the datagram exactly if it was the last missing piece, otherwise leaves it pending |
| FragmentDelivery.PendingWhileMissing | src/capture/fragment.rs:136-303 | through the cache, in every order, with duplicates and with any traffic under other keys in between, every arrival before the last missing piece leaves the datagram pending |
| FragmentDelivery.LastPieceCompletes | src/capture/fragment.rs:275-303 | the arrival of the last missing piece hands over exactly the original datagram and empties its entry |
| FragmentDelivery.OverlapIsDropped | src/capture/fragment.rs:201-236 | a non-identical overlap always drops the whole datagram from the cache |
| LiteralSearch.BuildTail | src/matching/mod.rs:656-668 | the tail kept is the last `keep` bytes of everything before it and the record |
| LiteralSearch.FindIterSound | src/matching/mod.rs:325-339 | leftmost non-overlapping search reports occurrences only, spaced by at least the literal |
| LiteralSearch.FindIterComplete | src/matching/mod.rs:325-339 | every occurrence is reported or overlapped by an earlier report |
| LiteralSearch.CrossingAll | src/matching/mod.rs:306-324 | with one literal the bridge holds at most one match and the boundary filter never removes it |
| LiteralSearch.HitsTrue | src/matching/mod.rs:294-340 | every hit of one record is a true occurrence in the contiguous stream and ends in this record |
| LiteralSearch.HitsCover | src/matching/mod.rs:294-340 | every occurrence that ends in this record is reported or overlapped by a report, also when the record is shorter than the literal |
| LiteralSearch.HitsIncrease | src/matching/mod.rs:294-340 | the hits of one record strictly increase |
| LiteralSearchRuns.KeptIsPast | src/matching/mod.rs:642-668 | after any steps the tail is the end of the contiguous stretch and of nothing else |
| LiteralSearchRuns.ReportsTrue | src/matching/mod.rs:642-654 | in any run, with gaps, rule changes and forgotten tails, every report lies in one contiguous stretch of one generation: no gap is bridged |
| LiteralSearchRuns.PastIsJoined | src/matching/mod.rs:642-654 | that stretch consists of adjoining records only |
| LiteralSearchRuns.StretchCovered | src/matching/mod.rs:294-340 | every occurrence in any contiguous stretch of any run, however cut, is reported or overlapped by a report of that stretch |
| LiteralSearchRuns.StretchIncreases | src/matching/mod.rs:294-340 | reports of a stretch strictly increase, so none is made twice, not even across several records |
| LiteralSearchRuns.WholeStream | src/matching/mod.rs:1040-1081 | for every cut of a stream: only true occurrences, in increasing order, and each occurrence reported or overlapped |
| LiteralSearchRuns.ResumeLosesOnlyStraddling | src/matching/mod.rs:1014-1040 | when the tail is forgotten at a boundary, as a resumed replay does, every occurrence that does not straddle the boundary is still reported or overlapped; one that does is never reported, and is overlapped only by a report made before |
| LiteralSearchRuns.ResumeLoses | src/matching/mod.rs:1014-1040 | for every literal of two or more bytes and every boundary inside it: scanned in one go it is reported, resumed at the boundary it is not |
| Scanner.MatchLimiter.Push | src/matching/mod.rs:196-215 | a match is kept unless one of the two budgets is used up, and then `limited` is set |
| Scanner.ScanInto | src/matching/mod.rs:286-340 | the reports are exactly the first allowed hits, and `limited` is set if and only if a hit was cut off |
| Scanner.ReplayScanner.ScanRecord | src/matching/mod.rs:1040-1099 | one record of one stream: its hits, its new tail, and which other tails are forgotten |
| RecordCodec.DecodeInvertsEncode | src/storage/segment.rs:711-771 | decoding what was encoded gives the record, up to an empty service name that comes back as none |
| RecordCodec.EncodeInvertsDecode | src/storage/segment.rs:711-771 | every accepted encoding is the one that would be written for what it decodes to |
| SegmentFile.ReadFrame | src/storage/segment.rs:787-827 | reading at a stored record gives that record, whatever follows it |
| SegmentFile.RecoveredScans | src/storage/segment.rs:837-913 | for any bytes: when recovery succeeds a strict scan reads all it left, a second recovery changes nothing, and only an unreadable end was cut |
| SegmentFile.ScansIffKeptWhole | src/storage/segment.rs:383-411 | a strict scan succeeds if and only if recovery would leave the file as it is |
| SegmentFile.TornFrame | src/storage/segment.rs:861-891 | any proper prefix of a record is cut off entirely |
| SegmentFile.CutLog | src/storage/segment.rs:837-913 | a log cut after any number of bytes keeps exactly the longest prefix of whole records |
| SegmentFile.TornTailRecovery | src/storage/segment.rs:837-913 | a well-formed file cut at any byte is removed if its header is cut, else recovered to header and longest whole-record prefix; a scan returns exactly those records and recovery is idempotent |
| SegmentFile.PublishedReads | src/storage/segment.rs:773-785 | every record reads back at the offset published for it |
| SegmentFile.FlushedSurvive | src/storage/segment.rs:837-913 | a record flushed before a crash stays readable at its offset after recovery, however much after it was lost |
| SegmentFile.File.RecoverTail | src/storage/segment.rs:837-913 | the recovery loop truncates, removes or refuses the file exactly as specified |
| SegmentFile.File.ScanAll | src/storage/segment.rs:383-411 | the scan loop returns the specified records or fails |
| SegmentWriter.AppendImage | src/storage/segment.rs:622-650 | storing one more record appends exactly its frame, and its offset is the old file size |
| SegmentWriter.ActiveWriter.PrepareRecord | src/storage/segment.rs:576-603 | a record is refused exactly when it is not storable or over the disk budget |
| SegmentWriter.ActiveWriter.WritePrepared | src/storage/segment.rs:622-650 | file and buffer stay the image of the stored records and the returned offset is where the record reads back |
| SegmentWriter.ActiveWriter.Flush | src/storage/segment.rs:652-661 | after a flush the file is the whole image |
| SegmentWriter.ActiveWriter.Rotate | src/storage/segment.rs:557-574 | the closed file is the complete image of its records; fails exactly when a header no longer fits the budget |
| SegmentWriter.ActiveWriter.Append | src/storage/segment.rs:106-160 | one record through the writer loop: fails exactly when it is not storable, when record and a needed header do not fit, or when flush or durable barrier before a rotation fail; never leaves a rotation without its record, and a segment outgrows its limit only with a single record |
| DurabilityInvariant.DurableMeans | src/storage/mod.rs:345-380 | every event ahead of an answered durable barrier is in the spool or in ClickHouse, or retention deleted that very event |
| DurabilityInvariant.ProjectedMeans | src/storage/mod.rs:380-402 | every event ahead of an answered projected barrier is in ClickHouse (or retention deleted that very event) and every spool file it could be in is gone |
| DurabilityInvariant.ProjectorNeverMisses | src/storage/mod.rs:191-198 | a live projector finds every sequence it is told is durable |
| DurabilityInvariant.BarrierClears | src/storage/mod.rs:380-402 | once the retention barrier is answered no row in queue or spool points into the candidates |
| DurabilitySteps.RotateIndexes | src/storage/segment.rs:503-514 | a segment stops being the newest only with all its rows in spool or ClickHouse |
| DurabilitySteps.DeleteIsSafe | src/api/mod.rs:248-268 | a segment file about to be deleted is named by no pending, queued, spooled or projected row and holds only records older than the cutoff |
| DurabilitySteps.RestartIndexes | src/storage/mod.rs:404-444 | recovery re-indexes every record a crash may have left without a row |
| DurabilitySteps.WriterKeeps | src/storage/segment.rs:100-194 | every step of the segment writer keeps the invariant |
| DurabilitySteps.QueueKeeps | src/storage/mod.rs:303-380 | every step of producers and metadata loop keeps the invariant, also when the loop dies half-way |
| DurabilitySteps.ProjectorKeeps | src/storage/mod.rs:183-267 | every step of the projector keeps the invariant, also a partial insert and a death after the removal |
| DurabilitySteps.RetentionKeeps | src/api/mod.rs:248-268 | every step of retention keeps the invariant, also a partial delete |
| DurabilitySteps.RestartKeeps | src/storage/mod.rs:404-444 | a restart keeps the invariant, and establishes it for an installation that never used this protocol |
| DurabilitySteps.StepKeeps | src/storage/mod.rs:163-444 | every step of every thread, a crash at any moment and a restart keep the invariant |
| DurabilityRuns.CrashConsistent | src/storage/mod.rs:404-444 | in every reachable state, running or crashed, each record of each segment that has a newer one keeps its index row in spool or ClickHouse unless retention deleted that very row, and every row names a whole record |
| DurabilityRuns.NoRowDangles | src/api/mod.rs:248-268 | in every reachable state no row in queue, spool or ClickHouse points at a missing segment or record |
| DurabilityRuns.DeletedIsOld | src/storage/segment.rs:342-381 | every deleted segment held only records older than the cutoff and is named by no row afterwards |
| DurabilityRuns.StepLosesNothing | src/storage/mod.rs:183-402 | no step, crash or restart loses an event that is in the spool or in ClickHouse, other than retention deleting it |
| DurabilityRuns.AcknowledgedForever | src/storage/mod.rs:345-380 | an event ahead of an answered durable barrier stays in spool or ClickHouse in every later state, through all crashes, unless retention deletes that very event |
| DurabilityRuns.ProjectedForever | src/storage/mod.rs:380-402 | an event ahead of an answered projected barrier is in ClickHouse in every later state unless retention deletes it, and at the answer no spool file it could be in is left |
| DurabilityRuns.DeletedMeans | src/api/mod.rs:248-268 | an event counts as deleted only if an earlier retention step removed that very row from ClickHouse, when it was older than the cutoff |
| DurabilityRuns.SpoolNeverGaps | src/storage/spool.rs:82-144 | in every reachable state the committed sequences form one contiguous range and the projector never meets a missing one |
| MetadataSpool.MetadataSpool.Open | src/storage/spool.rs:23-60 | counts what is there and refuses a spool without a quota or over it |
| MetadataSpool.MetadataSpool.Append | src/storage/spool.rs:82-124 | publishes a batch whole or not at all; the byte count is exact and within the quota unless the sync of the directory fails, which leaves the batch published, uncounted and reported as an error |
| MetadataSpool.MetadataSpool.Remove | src/storage/spool.rs:133-145 | removes one batch and exactly its size; a failing sync of the directory leaves it removed, counted and reported as an error |
| MetadataSpool.MetadataSpool.FirstSequence | src/storage/spool.rs:74-76 | the smallest committed sequence, if any |
| MetadataSpool.MetadataSpool.MaxSequence | src/storage/spool.rs:70-72 | the largest committed sequence, zero if none |
| ReplayRuns.AnsweredDrained | src/replay/mod.rs:542-556 | when every worker has answered its barrier, each has scanned all it was given and sent all its hits |
| ReplayRuns.CollectedAll | src/replay/mod.rs:558-564 | when the collector has answered, every hit is in the metadata queue ahead of the durable barrier |
| ReplayRuns.PublishCommits | src/replay/mod.rs:542-577 | at the moment a checkpoint is published every hit produced so far is durable and every record of its segment was scanned |
| ReplayRuns.StepKeeps | src/replay/mod.rs:448-577 | every interleaving of all threads, a crash and a resumption keep the invariant |
| ReplayRuns.CheckpointIsCommit | src/replay/mod.rs:542-577 | at every moment of every history all hits produced for published segments are durable and all their records since the start of the run were scanned |
| ReplayRuns.PersistedWasCommitted | src/replay/mod.rs:252-281 | whatever the stored checkpoint covers was committed by a run that started at or before it: resuming skips nothing |
| ReplayRuns.CompletedCoversAll | src/replay/mod.rs:338-386 | a completed job has covered every record of the frozen list, each in a run that made all hits it produced for it durable |
| HttpFields.SplitMeans | src/http/mod.rs:1434-1486 | splitting a field value loses nothing and leaves no separator in a part |
| HttpFields.ParseContentLength | src/http/mod.rs:1434-1460 | Content-Length is accepted if and only if all fields and all list items are valid text and one and the same decimal number that fits 64 bits; that number is the result, and none only without a field |
| HttpFields.TransferEncodingFraming | src/http/mod.rs:1462-1486 | Transfer-Encoding is accepted if and only if no coding is empty and chunked is at most the last of all fields; the message is chunked exactly when it is the last |
| HttpFields.ChunkSizeFits | src/http/mod.rs:1549-1572 | an accepted chunk size fits the 64-bit machine word |
| HttpFields.SizeReadBack | src/http/mod.rs:1549-1572 | a size written in hexadecimal is read back if and only if it fits 64 bits |
| HttpFields.ChunkSizeAccepted | src/http/mod.rs:1549-1572 | a line is accepted if and only if its trimmed size text is one to sixteen characters that are hexadecimal digits once a leading plus sign is taken away; an accepted size text conforms to section 7.1 of RFC 9112 if and only if it does not begin with a plus sign |
| HttpFields.AcceptedLineConformsIff | src/http/mod.rs:1549-1572 | of an accepted line the part before the first semicolon is a chunk-size of section 7.1 of RFC 9112 if and only if there is neither white space around it nor a plus sign in front |
| HttpFields.ExtensionsIgnored | src/http/mod.rs:1549-1572 | the text that follows the first semicolon does not matter |
| HttpFields.PlusIsAccepted | src/http/mod.rs:1549-1572 | with a plus sign in front a size is read back if and only if one more hexadecimal digit would still fit |
| HttpFraming.FindStartFirst | src/http/mod.rs:1667-1683 | resynchronisation finds the first plausible message start at the beginning or right after a line feed, if there is one |
| HttpFraming.DecodeStep | src/http/mod.rs:1546-1634 | one pass of the chunk decoder always consumes or stops |
| HttpFraming.TurnProgress | src/http/mod.rs:648-1089 | every pass of the feed loop stops, shrinks the buffer, or falls back from a body state to the header state at the same length: the loop ends |
| HttpWire.DecodePieces | src/http/mod.rs:1575-1605 | captured chunk data are slices of the buffer at their relative offsets, in order and without overlap |
| HttpWire.TurnWire | src/http/mod.rs:648-1089 | every pass keeps the buffer the unread end of the contiguous stretch and emits only slices of it, in order |
| HttpWire.ParserKeepsPlace | src/http/mod.rs:619-646 | after any feeds, outside a tunnel, the offset of the next byte plus the buffered length is the end of the input and the buffer is the end of the latest contiguous stretch |
| HttpWire.WireRecords | src/http/mod.rs:619-1091 | in any run with errors, holes and resynchronisation every wire record shows exactly the bytes of the stream at its offset, and records of one parser follow each other without overlap |
| HttpFinish.FinishIsQuiet | src/http/mod.rs:1093-1269 | finishing a connection after any feed emits no wire record: everything that could be framed was |
| HttpCap.DecodeSame | src/http/mod.rs:1575-1601 | two decoders with different capture limits consume the same bytes to the same state; one captures the first bytes of the other |
| HttpCap.CapOnlyTruncates | src/http/mod.rs:823-848 | on every input a capped parser makes the same errors, reports the same headers at the same offsets and ends in the same framing state as one without a cap, with each body cut to its first `cap` bytes |
| HttpCap.TwoCaps | src/http/mod.rs:903-1087 | two parsers that differ only in the cap agree on errors, headers and offsets; the smaller one's bodies are the first bytes of the other's |
| HttpReference.RunInPieces | src/http/mod.rs:648-1089 | the simple machine run on what has arrived and then on the rest is the machine run on all of it |
| HttpSegments.DoubleResumes | src/http/mod.rs:1656-1665 | a scan resumed three bytes before the old end finds the first blank line of the whole buffer |
| HttpSegments.CrlfResumes | src/http/mod.rs:1645-1654 | a scan resumed one byte before the old end finds the first line end of the whole buffer |
| HttpSegments.DecodeFollows | src/http/mod.rs:1536-1642 | one call of the decoder is a number of steps of the simple machine and stops only where that machine is stuck |
| HttpSegments.TurnFollows | src/http/mod.rs:648-1089 | one pass of the parser is a number of steps of the simple machine and stops only where that machine is stuck |
| HttpSegments.SegmentsAgree | src/http/mod.rs:648-1091 | for every cut of a synced stream whose lines fit, the parser's messages, errors, connection and place are those of the simple machine on the whole stream |
| HttpSegments.SameForEveryCut | src/http/mod.rs:648-1091 | any two cuts of one such stream, under any body cap, give the same messages with the same offsets and bodies, the same errors and the same final framing state |
| HttpParser.ChunkedDecoder.Consume | src/http/mod.rs:1536-1642 | the decoder loop ends and consumes and captures exactly as specified |
| HttpParser.HttpStreamParser.constructor | src/http/mod.rs:598-608 | a parser that has read nothing |
| HttpParser.HttpStreamParser.Feed | src/http/mod.rs:610-1091 | one feed ends; outside a tunnel its records are slices of the one contiguous stretch that ends with the chunk, in order, between the old and the new position, and position plus buffer is the end of the input; parser, connection and report are the specified ones |
| HttpParser.FedFacts | src/http/mod.rs:619-646 | the same of the specification: one feed never joins bytes across a hole |
| HttpOverTcp.DeliveredInOrder | src/http/mod.rs:619-646 | whatever a run of the reassembler delivers reaches the parser in stream order |
| HttpOverTcp.RecordsAreFirstSeen | src/flow/reassembly.rs:400-454 | end to end, over every run of packets and every reaction of the other direction: each byte of each HTTP wire record is the one a packet presented first for its position in the connection |
| Prefilter.FrameMayBelongToService | src/capture/mod.rs:169-245 | the tag loop and the checks decide exactly as specified |
| Prefilter.OrdinaryPorts | src/capture/parser.rs:118-199 | an ordinary IPv4 packet that is rejected decodes to nothing or to a packet with the very ports that were looked at |
| Prefilter.RejectingIsSafe | src/capture/mod.rs:163-245 | in live ingress, AF_XDP and offline capture a rejected frame would not have been shown after full decoding, whatever IPv6, fragments and tunnels decode to |
| Prefilter.EgressLosesIff | src/capture/mod.rs:163-245 | live egress loses a frame that would have been shown if and only if its bytes are, behind at most four VLAN tags, those of a whole unfragmented IPv4 packet with a whole TCP or UDP header, to a service port, from no service port, and not to a tunnel that would be opened |
| Prefilter.RejectedDecodes | src/capture/parser.rs:118-199 | a packet rejected by its ports decodes if and only if its lengths fit |
| Prefilter.EgressExample | src/capture/mod.rs:223-236 | a concrete egress frame that is rejected although it would have been shown |
| RawSuppression.Merge | src/api/mod.rs:512-525 | the merge loop leaves separated ranges with exactly the same union |
| RawSuppression.InsideIff | src/api/mod.rs:536-540 | in separated ranges, lying in one range is being covered at every byte |
| RawSuppression.CoverageHides | src/api/mod.rs:527-544 | a record lies in a merged range if and only if every byte is shown by a same-direction HTTP wire record |
| RawSuppression.SuppressRedundantTcpRaw | src/api/mod.rs:483-545 | exactly the hidden raw records are dropped; all others stay in their order |
| RawSuppression.VisibleMeans | src/api/mod.rs:527-544 | a record is visible if and only if it is there and not hidden |
| RawSuppression.ProjectMatchesToVisibleContent | src/api/mod.rs:557-618 | every hit lands where it must, and nothing else is in the buckets |
| RawSuppression.HiddenHitsLand | src/api/mod.rs:583-614 | every non-empty hit overlapping a hidden raw record is shown on some visible same-direction HTTP record that it overlaps |
| FlowTable.Metrics.TryAdmitFlow | src/flow/mod.rs:717-725 | reserves a slot exactly when one is left |
| FlowTable.Shard.CloseFlow | src/flow/mod.rs:807-829 | removes the flow from table, counts and budget together |
| FlowTable.Shard.Admit | src/flow/mod.rs:435-467 | a new flow enters if and only if its service is accepted and both budgets allow it; otherwise nothing changes |
| FlowTable.Shard.Handle | src/flow/mod.rs:388-634 | one packet: the new table is exactly the specified one, counts stay exact without zero entries, and every live flow owns exactly one timer with its id |
| FlowTable.Shard.Expire | src/flow/mod.rs:636-672 | the timer loop ends with nothing due, closes only flows idle for their timeout, leaves none idle for longer than its timeout plus the time one packet may take, and keeps every book |
| FlowTable.Shard.Compact | src/flow/mod.rs:674-697 | rebuilding the heap keeps one timer per live flow and bounds the heap by 4096 or twice the flows plus 1024 |
| FlowTable.CountsWithout | src/flow/mod.rs:821-827 | taking a flow out keeps the per-prefix counts exact and removes a count that reaches zero |
| FlowTable.TimersLess | src/flow/mod.rs:636-645 | popping a timer leaves at most its own flow without one |
| FlowBudget.NeverUnderflows | src/flow/mod.rs:807-829 | giving back a slot never takes the counter below zero |
| FlowBudget.BudgetKept | src/flow/mod.rs:717-725 | under every interleaving of the shards the counter equals live flows plus reservations and releases in flight and never exceeds the limit |

## Left out

- 64-bit saturation at the upper end: totals and offsets are unbounded naturals; saturation below is excluded by proof in `SequenceSpace.ExtendSeqExact`.
- Wall clocks: every `now` and `ts_ns` is an argument; durations are naturals in one unit per component.
- Udp datagrams in a half-stream (`reserve_udp_offset`), TCP tombstones and what they suppress: the latter is an input of `FlowTable.Shard.Handle`.
- Reassembly.TcpHalf.Finalize: promises the specified state, which does not deliver segments that start beyond a tentative FIN; the exact condition is `HalfStream.FinalizeDrainsAllIff`.
- FragmentCache.FragmentCache.Insert: one shard of the shared cache; the random choice of a shard and its lock are not modelled.
- Several literals in one group and regular expressions: `find_iter` suppresses overlaps between literals, so completeness holds for one literal only; regular expressions are foreign code.
- Scanner.ReplayScanner.ScanRecord: one rule; the choice of rule groups by view and service is the parameter `interested`.
- RecordCodec: the service name is its bytes; replacement of invalid UTF-8 on reading is not modelled (the writer stores valid text).
- The checksum is any function of the payload bytes; no property of CRC-32 is used.
- Power loss: the crash is a process crash, flushed bytes survive. A crash inside startup recovery is not modelled; recovery is one step.
- Durability: segments hold records as time stamps; that a torn last record is cut off exactly, and that a flushed one stays readable, is `SegmentFile.TornTailRecovery` and `SegmentFile.FlushedSurvive`. Segment names are numbers in creation order.
- Durability: ClickHouse is a set of rows; a batch may be inserted in parts and again. SQL, HTTP transport and Postgres are not modelled.
- ReplayCheckpoint: the metadata queue is a log of which a prefix is durable, as `DurabilityRuns.AcknowledgedForever` proves; which hits a scan finds is arbitrary; live-pressure pauses only delay steps; legacy jobs without a stored segment list are not modelled.
- HttpFraming: header parsing (`httparse`) and the parsing of a chunk-size line are arbitrary functions of the bytes; what the code makes of the field values and of that line is `HttpFields`. Decoded (gzip, deflate) records, metadata records and the request direction attached to an emission are left out.
- HttpSegments.SameForEveryCut: for one direction; the pairing queue may start in any state but is not changed by the other direction meanwhile.
- HttpWire.WireRecords: chunks arrive in stream order, as `HttpOverTcp.DeliveredInOrder` proves of the reassembler; a connection that became a tunnel is not fed.
- RawSuppression.HiddenHitsLand: record ids are unique, as generated.
- FlowTable.Shard.Handle: flow ids are fresh, as generated; what a packet does inside its flow (counters, snapshots, closing) is an input.
- Prefilter: the outermost frame; what lies behind IPv6, fragments and tunnels is any function of the bytes, and flow keys, flags and sequence numbers are left out.
- Sockets, libpcap, AF_XDP, eBPF, CPU pinning, web interface, authentication, configuration parsing, metrics export, topology and throttle rules: input/output or easy members beside the parts above.
