# ReMPI: record and replay of MPI receives by clock delta compression

ReMPI records in which order an MPI program observes its messages and makes a later run observe
them in the same order. Messages carry Lamport clocks. The recorder sorts the receives of a
matching set by `(clock, sender)` and stores only how the observed order differs from the sorted
one, as a few "move this event by that many places" pairs. Replay receives messages in whatever
order they come, decides with the help of clocks published by the senders which of them can no
longer be overtaken, numbers those, and hands the recorded order back to the application.

This project models that system in Dafny and proves that it does what it is for: what is handed
out during replay is what was observed while recording, for every recording whose chunks the decoder
can load, every arrival order and every run of the clock protocol.

## How the pieces fit

| Part | Modules |
|---|---|
| Permutation codec | `Chains`, `SearchNodes`, `EditScripts`, `PathScripts`, `PathSearch`, `DiffBinary`, `ClockDelta`, `Minimality`, `DecodeIndices`, `LinearPrediction` |
| Recording tables and their bytes | `TableRecorder`, `InputFormats`, `ChunkFormat`, `RecordReplay`, `EndToEnd` |
| Replaying a table | `ReplayTables`, `ReplaySteps`, `ReplayGroups`, `DecodeOrdering`, `CallOutcomes`, `ReplayRuns`, `RepOrdering` |
| Replaying a recording of many chunks | `EpochReplay`, `ChunkRuns`, `ChunkDecoder` |
| Look-ahead clocks | `LookAhead`, `LookAheadSafety`, `ClockWindows`, `ProtocolReplay`, `RemoteSlots` |
| Around it | `MatchingSets`, `MatchingSetOrders`, `BasicPipeline`, `Basics`, `Options` |

The main results, from the inside out:

* The pruned, incremental search of `shortest_edit_distance_path_search` finds a longest
  increasing chain (`PathSearch.ShortestEditDistancePathSearch.AddNode` against the plain dynamic
  program `Chains.Best`). The moves made from it turn the sorted order into the observed one
  (`ClockDelta.Compress`), decode to it (`DecodeIndices.RecordThenDecode`), and no shorter list of
  moves exists (`Minimality.NoShorterMoves`).
* All matching sets of a chunk, recorded, formatted, compressed, written to a file, read back and
  decoded, are tables whose streams are exactly what was observed (`EndToEnd.RecordAndReload`); a
  file of any number of chunks reads back as these chunks (`ChunkFormat.WriteThenRead`).
* One call of `cdc_decode_ordering` meets a declarative specification
  (`DecodeOrdering.CallSpec`); any run of such calls hands out a prefix of the recorded stream, all
  of it exactly when the table is decoded (`ReplayRuns.ReplayRefinesRecording`), and says so
  exactly once (`ReplayRuns.EndIsReportedOnce`). It finishes (`ReplayRuns.FinishesOnceArrived`), and when it
  hands out nothing the reason is named (`ReplayRuns.WhyNothing`). The specification leaves no choice
  (`CallOutcomes.CallIsDetermined`).
* Over a recording of any number of chunks, each with any number of matching sets, every replay hands
  each set a prefix of what was recorded for it, everything exactly when the last chunk is decoded
  (`ChunkRuns.ReplayFollowsRecording`), although messages of later chunks may arrive at any time
  (`EpochReplay.LaterEpochsStay`). Expanded, that is what was observed
  (`EndToEnd.ReplayReproducesAllChunks`).
* In every reachable state of the clock protocol over any number of ranks, whatever the
  interleaving of their steps, the bound a receiver
  keeps for a sender holds of every message on the way and of every message sent later
  (`LookAheadSafety.BoundIsSafe`), and no rank sends below the clock it exposed
  (`LookAheadSafety.SendIsNotBelowExposed`). Clocks that are exposed
  also arrive: once the counted messages are received, the next update lifts the bound to the snapshot's
  clock (`LookAheadSafety.ExposedClockArrives`). So in every run of the protocol, from the zero bounds of
  the chunks that are loaded on, the replay of a rank follows its recording
  (`ProtocolReplay.ReplayUnderProtocol`).
* Merging matching sets by relabelling depends on the order of a hash map, and exactly when is proved
  (`MatchingSetOrders.EveryOrderIsExact`, `MatchingSetOrders.OrderMattersUnlessTidy`).

## What is assumed

* Delivery is first in, first out per sender. The standard promises less: messages may not
  overtake each other only when they match the same receive (section 3.5 of MPI 3.1).
* The clocks of recorded messages are positive; local clocks start at 10. That `(clock, sender)`
  pairs of one table are distinct is not assumed: `format` aborts otherwise, which is proved.
* The clocks of a sender go on increasing from one chunk to the next, and every table that is written
  holds something (`add` creates a table only for an event).
* One read of a sender's window yields its clock and its counter together.
* The events of one with_next group are recorded next to each other, and no table of a chunk ends
  inside a group (`format` aborts otherwise).
* A message is sent in replay with the clock it was sent with when recording.
* The gather buffer, which the program allocates without clearing, starts as zero.
* `push_all` closes the queue in one step with its last enqueue, as seen by the writing thread.

`std::list::sort`, `std::sort` and `list::remove` are functions of the model; the `qsort` of the
remote indexing is modelled as the ascending sort that is meant, although its comparison function
never returns a negative number. Iterators into a list of distinct values are modelled by the value
they point to, vectors and lists by sequences held in fields or arrays changed in place. Integers
are unbounded except where a width matters: linear prediction, the casts around it and the byte
format use 32-bit `int` and 64-bit `size_t` arithmetic. Conditions under which the program aborts
(`REMPI_ERR`) are flags that are returned or kept, and are proved to stay off where they should.

Where code and documentation differ the code is followed. `update_start_it` tests `matched_bits` one
position past its end when every column is matched; the model stops at the end. The merging of
matching sets depends on the order of a hash map's iteration in some cases, of which
`MatchingSets.OrderCanMatter` is one; `MatchingSetOrders` says when. `decode` compares the number of
matching sets that have bounds with the number of senders of a later chunk, and aborts if they differ,
and it gives a set that is known already no bound for a new sender: so the replay of several chunks
is proved for those chunks that load, and `ChunkRuns.LoadBounds` says which do.

## Model

| member | source | states |
|---|---|---|
| Chains.BestIsMaximum | src/rempi/rempi_clock_delta_compression.cpp:188-255 | the plain dynamic program the search is measured against bounds every increasing chain and is attained by one |
| PathSearch.ShortestEditDistancePathSearch.FindShortestNode | src/rempi/rempi_clock_delta_compression.cpp:127-138 | the first ancestor up and left of the new node is found, with its distance, or none and a negative distance |
| PathSearch.ShortestEditDistancePathSearch.SweepNonCandidateLeaf | src/rempi/rempi_clock_delta_compression.cpp:140-154 | exactly the leaves left of the start column go, in place, the others keep their order |
| PathSearch.ShortestEditDistancePathSearch.AddNode | src/rempi/rempi_clock_delta_compression.cpp:188-255 | although parents are erased and leaves swept, the new leaf ends a longest chain: distance row + column + 2 - (1 + Best) |
| SearchNodes.CoverAfterSweep | src/rempi/rempi_clock_delta_compression.cpp:140-154 | sweeping loses no chain a later node could use |
| SearchNodes.CoverAfterAdd | src/rempi/rempi_clock_delta_compression.cpp:227-251 | erasing the chosen parent from the leaves loses no chain a later node could use |
| PathSearch.ShortestEditDistancePathSearch.ConvertToDiffReversed | src/rempi/rempi_clock_delta_compression.cpp:160-181 | the list is the edit script of the path to the last leaf, backwards, without the corner |
| ClockDelta.UpdateStartIt | src/rempi/rempi_clock_delta_compression.cpp:303-316 | the start column stays the least unmatched column |
| ClockDelta.MatchColumn | src/rempi/rempi_clock_delta_compression.cpp:504-531 | for every permutation the moving cursors find the column that is the event's clock order and never run off the end |
| ClockDelta.CursorNotPast | src/rempi/rempi_clock_delta_compression.cpp:259-316 | the start cursor is never right of a column still wanted |
| DiffBinary.ChangeToSeqOrderId | src/rempi/rempi_clock_delta_compression.cpp:318-334 | rows of ADD entries become the sequence ids observed there |
| DiffBinary.CountBetween | src/rempi/rempi_clock_delta_compression.cpp:370-388 | the inner loop counts exactly the entries of the current list between the two occurrences of an id |
| DiffBinary.StateAfterMove | src/rempi/rempi_clock_delta_compression.cpp:366-393 | after each emitted move the list is the script filtered to ignored entries, unmoved REMOVE and moved ADD entries |
| DiffBinary.ConvertToMoves | src/rempi/rempi_clock_delta_compression.cpp:336-404 | any proper script's moves take its order before to its order after, one move per displaced id |
| EditScripts.PairIsMove | src/rempi/rempi_clock_delta_compression.cpp:366-393 | moving an id by the counted delay is the same as switching its two entries |
| EditScripts.ScriptIsProper | src/rempi/rempi_clock_delta_compression.cpp:356-396 | a script between two orders of the same ids holds every displaced id once as REMOVE and once as ADD |
| PathScripts.ReadsSorted | src/rempi/rempi_clock_delta_compression.cpp:160-181 | a path's script read without its additions is the sorted order |
| PathScripts.ReadsObserved | src/rempi/rempi_clock_delta_compression.cpp:160-181 | and read without its removals it is the observed order |
| ClockDelta.Compress | src/rempi/rempi_clock_delta_compression.cpp:465-672 | the moves turn the sorted order into the observed one and number n minus the longest increasing chain |
| Minimality.UnmovedKeepOrder | src/rempi/rempi_encoder_cdc.cpp:1342-1351 | events that no move names keep their order, whatever the moves |
| Minimality.NoShorterMoves | src/rempi/rempi_clock_delta_compression.cpp:188-255 | no list of single moves with fewer than n minus the longest chain gives the observed order |
| LinearPrediction.CompressByLinearPrediction | src/rempi/rempi_compression_util.cpp:117-154 | in place, every entry minus twice the one before plus the one before that, in the element type's arithmetic |
| LinearPrediction.EvenIsZero | src/rempi/rempi_compression_util.cpp:117-154 | a vector that grows evenly is coded as zeros from its third entry on |
| LinearPrediction.DecompressByLinearPrediction | src/rempi/rempi_compression_util.cpp:157-168 | in place, running sums of sums in the element type's arithmetic |
| LinearPrediction.RoundTripSize | src/rempi/rempi_compression_util.cpp:117-168 | decoding a coded size_t vector is the identity modulo 2^64 |
| LinearPrediction.RoundTripInt | src/rempi/rempi_encoder_cdc.cpp:1004-1014 | an int vector coded as int, sign-extended, decoded as size_t and cast back is unchanged, negative delays included |
| LinearPrediction.NoOverflow | src/rempi/rempi_clock_delta_compression.cpp:413-417 | entries below 2^29 in magnitude are coded without leaving the range of int |
| DecodeIndices.ApplyMembers | src/rempi/rempi_encoder_cdc.cpp:1343-1351 | every erase and insert keeps the list a permutation |
| DecodeIndices.MemorizeIterators | src/rempi/rempi_encoder_cdc.cpp:1329-1340 | the relative jumps reach the node of every moved id and stay inside the list |
| DecodeIndices.PermuteList | src/rempi/rempi_encoder_cdc.cpp:1342-1351 | the loop applies the moves in order and no advance leaves the list |
| DecodeIndices.CdcPrepareDecodeIndices | src/rempi/rempi_encoder_cdc.cpp:1301-1366 | the k-th event of the decoded order gets index k |
| DecodeIndices.CompressMatchedEvents | src/rempi/rempi_encoder_cdc.cpp:706-721 | the matched section is ids then delays, each predicted, minimal in number |
| DecodeIndices.DecodeMatchedEvents | src/rempi/rempi_encoder_cdc.cpp:1170-1203 | the section read back as size_t yields the indices of the recorded order |
| DecodeIndices.RecordThenDecode | src/rempi/rempi_encoder_cdc.cpp:1301-1366 | for every permutation, indices[perm[k]] == k after recording and decoding |
| TableRecorder.MergeLosesNothing | src/rempi/rempi_encoder_cdc.cpp:199-213 | counting neighbouring failed tests together loses none of them |
| TableRecorder.MergedTests | src/rempi/rempi_encoder_cdc.cpp:199-213 | no two counts of failed tests stay next to each other |
| TableRecorder.ExpandSingles | src/rempi/rempi_encoder_cdc.cpp:199-213 | events observed one by one are their own expansion, so what is not lost is the observed sequence itself |
| TableRecorder.TableRecorder.Add | src/rempi/rempi_encoder_cdc.cpp:188-217 | within one table, appending an event keeps vectors, positions and merged failed tests equal to what was observed so far |
| InputFormats.InputFormat.Add | src/rempi/rempi_encoder_cdc.cpp:178-187 | the event is added to what was observed for its test id, a new id gets a table, the others stay |
| TableRecorder.RepeatIsCaught | src/rempi/rempi_encoder_cdc.cpp:246-256 | the epoch check fires exactly for a repeated (clock, sender) pair |
| TableRecorder.CleanMeansDistinct | src/rempi/rempi_encoder_cdc.cpp:235-256 | the sorted list holds no equal neighbours with a clock exactly when no (clock, sender) pair with a clock repeats among the events |
| TableRecorder.TableRecorder.Format | src/rempi/rempi_encoder_cdc.cpp:229-268 | aborts exactly for a truncated group or a repeated pair whose clock is not 0; clock orders are distinct and smaller clocks come first, smaller senders where clocks are equal; the epoch line holds every sender once with its highest clock |
| InputFormats.InputFormat.Format | src/rempi/rempi_encoder_cdc.cpp:220-272 | aborts exactly if some table fails; otherwise every table has its layout |
| TableRecorder.ListEpoch | src/rempi/rempi_encoder_cdc.cpp:260-267 | every sender once with its last clock, in any order |
| ChunkFormat.WordRoundTrip | src/rempi/rempi_encoder_cdc.cpp:992-1014 | a word in range reads back as written, sign included |
| ChunkFormat.PutAt | src/rempi/rempi_encoder_cdc.cpp:992-1014 | words are little-endian: byte i is the i-th digit to the base 256 |
| ChunkFormat.IntBytes | src/rempi/rempi_encoder_cdc.cpp:1004-1014 | an int is its four bytes in two's complement, the lowest first |
| ChunkFormat.ChunkWriter.CompressNonMatchedEvents | src/rempi/rempi_encoder_cdc.cpp:627-703 | queues identifier, count, epoch line, group positions, indices and failed tests in this order, positions predicted |
| ChunkFormat.ChunkWriter.CompressMatchedEvents | src/rempi/rempi_encoder_cdc.cpp:706-721 | queues the size and the ints of the moves |
| ChunkFormat.ChunkWriter.Encode | src/rempi/rempi_encoder_cdc.cpp:781-802 | the queue is the concatenation of all tables |
| ChunkFormat.ReadTable | src/rempi/rempi_encoder_cdc.cpp:1043-1199 | every vector of a table comes back as before coding and the cursor ends at the table's end |
| ChunkFormat.EncodedLayout | src/rempi/rempi_encoder_cdc.cpp:627-721 | byte offsets of a table: identifier, count, epoch line, both counted vectors with length before size, failed tests, moves, every word in its place; the positions of groups and failed tests predicted, the rest as it is |
| ChunkFormat.Decode | src/rempi/rempi_encoder_cdc.cpp:1016-1299 | the loop consumes exactly all bytes and restores every table; the inconsistent-size abort is unreachable |
| ChunkFormat.RecordFile.WriteRecordFile | src/rempi/rempi_encoder_cdc.cpp:804-845 | the size word of all buffers together is appended, then the buffers in order |
| ChunkFormat.ReadRecordFile | src/rempi/rempi_encoder_cdc.cpp:933-978 | exactly the chunk at the cursor is read; a zero size means there is no more record; the empty-read abort is unreachable |
| ChunkFormat.ReadChunks | src/rempi/rempi_encoder_cdc.cpp:866-882 | chunks are read and decoded until the separator, as many as were written and none after it |
| ChunkFormat.WriteThenRead | src/rempi/rempi_encoder_cdc.cpp:804-978 | any list of nonempty chunks of tables, written with the separator behind, reads back as the same list of maps |
| RecordReplay.FormattedIsValid | src/rempi/rempi_encoder_cdc.cpp:220-272 | a table that format accepts is a valid record |
| RecordReplay.WithNextFlags | src/rempi/rempi_encoder_cdc.cpp:1103-1109 | a flag is set exactly at the recorded positions |
| RecordReplay.FailedTests | src/rempi/rempi_encoder_cdc.cpp:1156-1162 | the map holds every recorded position with its count |
| RecordReplay.ToImage | src/rempi/rempi_encoder_cdc.cpp:781-802 | the sections of a formatted table fit their integer types and describe it |
| RecordReplay.FromImage | src/rempi/rempi_encoder_cdc.cpp:1016-1219 | what decode builds from these sections is the recorded table |
| EndToEnd.RecordAndReload | src/rempi/rempi_encoder_cdc.cpp:178-1366 | for all matching sets of a chunk together: observed, formatted, written, read and decoded, each table is ready for replay and its stream is what was observed for its test id; aborts exactly when format does |
| EndToEnd.ReplayReproducesObservation | src/rempi/rempi_encoder_cdc.cpp:1390-1973 | a decoded replay of a table has handed out exactly the observed events, one by one; if they were observed one by one, that sequence itself |
| EndToEnd.ReplayReproducesAllChunks | src/rempi/rempi_encoder_cdc.cpp:866-905 | a finished replay of a recording of any number of chunks has handed each matching set exactly what was observed for it, event by event; if it was observed one by one, that sequence itself |
| ReplayTables.DecodedIffNothingRemains | src/rempi/rempi_encoder_cdc.cpp:66-82 | is_decoded_all holds exactly when nothing of the stream remains |
| ReplayTables.SolidPrefix | src/rempi/rempi_encoder_cdc.cpp:1546-1568 | messages below everything still to come are the next ones of the full sorted order |
| ReplaySteps.AdmitAll | src/rempi/rempi_encoder_cdc.cpp:1486-1533 | after admitting, a message is here exactly when its sender's line has reached its clock |
| ReplaySteps.SortSorts | src/rempi/rempi_encoder_cdc.cpp:1538-1538 | sorting by (clock, sender) gives the strict order |
| ReplaySteps.SortsByClockThenSource | src/rempi/rempi_encoder_cdc.cpp:1538-1538 | sorting keeps the messages and puts smaller clocks first, smaller senders where clocks are equal |
| ReplaySteps.ReachedMeansAllArrived | src/rempi/rempi_encoder_cdc.cpp:123-142 | a reached epoch line means every message of the table has arrived |
| ReplaySteps.ReachedIffAllArrived | src/rempi/rempi_encoder_cdc.cpp:123-142 | for lines that messages of the table drew, the epoch line is reached if and only if all of them have arrived |
| ReplaySteps.SolidableIsFinal | src/rempi/rempi_encoder_cdc.cpp:1546-1568 | whatever the loop counts as solid cannot be overtaken |
| ReplayGroups.ScanIsComplete | src/rempi/rempi_encoder_cdc.cpp:1678-1705 | leaving the scan once all slots are full changes nothing |
| ReplayGroups.InterimIsBelow | src/rempi/rempi_encoder_cdc.cpp:1712-1759 | the interim clock never exceeds the clock after the group and equals it when the group is complete |
| ReplayGroups.TicksPass | src/rempi/rempi_clock.cpp:70-79 | n receives move the clock by n at least and each message's clock is passed by one for every message from it on, and one of these bounds is met exactly |
| DecodeOrdering.TestTable.IsDecodedAll | src/rempi/rempi_encoder_cdc.cpp:66-82 | nothing unmatched and nothing matched is left |
| DecodeOrdering.TestTable.IsReachedEpochLine | src/rempi/rempi_encoder_cdc.cpp:123-142 | every sender's line equals its epoch clock |
| DecodeOrdering.TestTable.AdmitEvents | src/rempi/rempi_encoder_cdc.cpp:1486-1533 | exactly this epoch's messages move over, in order; the others stay |
| DecodeOrdering.TestTable.CountSolid | src/rempi/rempi_encoder_cdc.cpp:1546-1568 | the longest prefix the bound allows, all of it in a collective |
| DecodeOrdering.TestTable.MoveSolid | src/rempi/rempi_encoder_cdc.cpp:1597-1621 | the solid list grows in clock order with the numbers format gave; the order abort is unreachable |
| DecodeOrdering.TestTable.ComputeOutcount | src/rempi/rempi_encoder_cdc.cpp:1659-1664 | the size of the group, never reading past the flags |
| DecodeOrdering.TestTable.FillSlots | src/rempi/rempi_encoder_cdc.cpp:1665-1705 | a slot is filled exactly when its message is solid; the negative-index abort is unreachable |
| DecodeOrdering.ScanStep | src/rempi/rempi_encoder_cdc.cpp:1684-1704 | the index of a solid message is never below the replay position |
| DecodeOrdering.TestTable.InterimClock | src/rempi/rempi_encoder_cdc.cpp:1714-1759 | the iterated max + 1 over slot clocks, waiting messages below the bound, and the bound: past every member that has arrived and, if nothing waits below the bound, past the bound for every one that has not, each counted on by one for every member from there |
| DecodeOrdering.GuessesAreBounds | src/rempi/rempi_encoder_cdc.cpp:1740-1751 | no waiting message is below the bound, so an empty slot counts as the bound |
| DecodeOrdering.TestTable.GroupEvents | src/rempi/rempi_encoder_cdc.cpp:1860-1872 | with_next flags and indices are the recorded ones |
| DecodeOrdering.TestTable.RemoveReplayed | src/rempi/rempi_encoder_cdc.cpp:1875-1937 | exactly the group leaves the solid list and the position moves past it |
| DecodeOrdering.TestTable.ReplayNext | src/rempi/rempi_encoder_cdc.cpp:1655-1972 | the group comes out exactly when all its members are solid |
| DecodeOrdering.TestTable.CdcDecodeOrdering | src/rempi/rempi_encoder_cdc.cpp:1390-1973 | one call meets CallSpec: output, leftover messages, maximal solid prefix, finish flag, interim clock, invariant, no abort |
| CallOutcomes.CallIsDetermined | src/rempi/rempi_encoder_cdc.cpp:1390-1973 | state, messages, bound and local clock determine what a call hands out, leaves, reports and exposes, and the state after it |
| ReplayRuns.CallConserves | src/rempi/rempi_encoder_cdc.cpp:1416-1438 | a call hands out what it takes off the front of the recorded stream |
| ReplayRuns.CallFinishes | src/rempi/rempi_encoder_cdc.cpp:1401-1409 | true is returned exactly by the call that completes the table |
| ReplayRuns.CallProgresses | src/rempi/rempi_encoder_cdc.cpp:1554-1568 | with the epoch line reached, every call on an unfinished table hands something out |
| ReplayRuns.WhyNothing | src/rempi/rempi_encoder_cdc.cpp:1806-1847 | an empty-handed call has a group member that has not arrived or is above the bound |
| ReplayRuns.ReplayRefinesRecording | src/rempi/rempi_encoder_cdc.cpp:1390-1973 | for every run of calls the outputs are a prefix of the recorded stream, all of it exactly when the table is decoded |
| ReplayRuns.EndIsReportedOnce | src/rempi/rempi_encoder_cdc.cpp:1401-1409 | exactly one call of a run returns true, the one that hands out the last event |
| ReplayRuns.ReplaysAgree | src/rempi/rempi_encoder_cdc.cpp:1390-1973 | two replays of one recording never disagree |
| ReplayRuns.ReplayFinishes | src/rempi/rempi_encoder_cdc.cpp:1390-1973 | once all messages are there, as many calls as the stream is long decode the table |
| ReplayRuns.FinishesOnceArrived | src/rempi/rempi_encoder_cdc.cpp:1390-1973 | a replay from the start is decoded as many calls after the arrival of the last message as the stream is long |
| ReplayRuns.SolidOrderIsRecorded | src/rempi/rempi_encoder_cdc.cpp:235-239 | a solid message has the clock order the recorder gave it |
| EpochReplay.ComputeLookAheadRecvClock | src/rempi/rempi_encoder_cdc.cpp:418-479 | the least (clock, rank) among senders not in a collective; the collective marker exactly when all are; aborts exactly for a sender without a bound |
| EpochReplay.BoundsGiveFrontier | src/rempi/rempi_encoder_cdc.cpp:418-479 | bounds per sender give the bound decode ordering needs |
| EpochReplay.WithinIsEpoch | src/rempi/rempi_encoder_cdc.cpp:110-120 | within_epoch admits exactly the messages up to the last recorded one of their sender |
| EpochReplay.EpochsSplit | src/rempi/rempi_encoder_cdc.cpp:1489-1532 | of messages of any number of chunks, in order per sender, the first chunk admits exactly its own, in order, and what it leaves is in order together with whatever comes later |
| EpochReplay.LaterEpochsStay | src/rempi/rempi_encoder_cdc.cpp:1489-1532 | what the first chunk leaves is in order for the chunks after it |
| ChunkRuns.LoadBounds | src/rempi/rempi_encoder_cdc.cpp:1246-1280 | aborts exactly when fewer sets are known than the chunk has, a known set comes when the number of sets known by then is not the number of senders, or there are more than 1024 senders; otherwise known sets keep their bounds and a new one has the bound 0 for every sender and no other |
| ChunkRuns.FreshBoundsHold | src/rempi/rempi_encoder_cdc.cpp:1255-1262 | the bounds a new set starts with hold of every message of every valid record, whatever has arrived |
| ChunkRuns.ReloadNeedsEqualCounts | src/rempi/rempi_encoder_cdc.cpp:1262-1268 | a chunk without new matching sets loads if and only if as many sets are known as it has senders, at most 1024 |
| ChunkRuns.SecondChunkFails | src/rempi/rempi_encoder_cdc.cpp:1262-1268 | one matching set with two senders: the first chunk loads, the second does not |
| ChunkRuns.NewSenderIsUnknown | src/rempi/rempi_encoder_cdc.cpp:451-458 | after loading, a bound is looked up for every sender of a table unless the set was known and had none for one of them |
| ChunkRuns.CallsAreAllowed | src/rempi/rempi_encoder_cdc.cpp:2138-2170 | in every replay of any number of chunks each call finds its messages in order, whatever waits from later chunks |
| ChunkRuns.ReplayFollowsRecording | src/rempi/rempi_encoder_cdc.cpp:866-905 | in every such replay what each matching set is handed is a prefix of what was recorded for it over all chunks, and everything is handed out exactly when the last chunk is decoded |
| ChunkDecoder.EpochDecoder.LoadChunk | src/rempi/rempi_encoder_cdc.cpp:1246-1280 | a new chunk starts with nothing decoded, keeps leftover messages and the bounds of known sets, gives new ones the bound 0 for every sender, and aborts exactly when LoadBounds does |
| ChunkDecoder.EpochDecoder.InsertChunk | src/rempi/rempi_encoder_cdc.cpp:2138-2195 | one step of the decoder; the counter is the number of decoded tables and the epoch ends exactly when all are; aborts exactly for an unknown set or sender |
| RepOrdering.RepTable.CdcDecodeOrdering | src/rempi/rempi_encoder_rep.cpp:219-380 | hands out, sorted, exactly the messages whose (clock, sender) is at or below the bound, in a collective all; the rest stays, nothing is lost, never aborts |
| RepOrdering.HighBoundEmpties | src/rempi/rempi_encoder_rep.cpp:268-281 | a bound at or above everything that waits or comes in leaves nothing waiting |
| RepOrdering.EmittedIsSorted | src/rempi/rempi_encoder_rep.cpp:219-380 | at every point, what was handed out followed by what waits is everything received, sorted |
| RepOrdering.ArrivalOrderDoesNotMatter | src/rempi/rempi_encoder_rep.cpp:219-380 | runs that received the same messages hand out the same sorted stream |
| LookAheadSafety.LastReceivedIsHighest | src/rempi/rempi_msg_buffer.cpp:205-219 | the maximum kept per sender is the clock of its last received message |
| LookAheadSafety.GatherKeepsLink | src/rempi/rempi_cp.cpp:340-369 | what a snapshot does not count is sent later and not below the snapshot's clock |
| LookAheadSafety.UpdateKeepsLink | src/rempi/rempi_encoder_cdc.cpp:484-542 | each way of raising the bound is safe, and the bound never falls |
| LookAheadSafety.IsendKeepsInv | src/rempi/rempi_recorder_cdc.cpp:251-287 | sending after counting keeps every bound, snapshot and assumed clock valid |
| LookAheadSafety.RaiseInterimKeepsInv | src/rempi/rempi_encoder_cdc.cpp:1977-2001 | exposing the interim clock while waiting never promises more than the clock after the group |
| LookAheadSafety.CompleteReceiveKeepsInv | src/rempi/rempi_clock.cpp:81-105 | when the group is synchronised the local clock has reached the exposed clock |
| LookAheadSafety.StepKeepsInv | src/rempi/rempi_recorder_cdc.cpp:419-477 | every step of every rank keeps the invariant |
| LookAheadSafety.BoundIsSafe | src/rempi/rempi_encoder_cdc.cpp:558-617 | in every run the bound holds of all messages not received, sent already or at any later time |
| LookAheadSafety.SendIsNotBelowExposed | src/rempi/rempi_recorder_cdc.cpp:279-281 | no send is below the exposed clock: the complaint is never made |
| LookAheadSafety.ReceivePasses | src/rempi/rempi_clock.cpp:70-105 | after a group is received the local clock is above every clock of the group |
| LookAheadSafety.RaisesExpose | src/rempi/rempi_encoder_cdc.cpp:1977-2001 | what is raised is exposed: a clock up to the rank's own, or one above everything it may assume of the group it waits for |
| LookAheadSafety.UpdateRaises | src/rempi/rempi_encoder_cdc.cpp:484-601 | with nothing on the way the bound rises to the snapshot's clock, with something on the way to the last clock received, after a probe it stays |
| LookAheadSafety.ChannelGrows | src/rempi/rempi_cp.cpp:340-426 | each step counts, sends, receives or takes a snapshot on a channel as named and no bound falls |
| LookAheadSafety.SnapshotArrives | src/rempi/rempi_encoder_cdc.cpp:558-617 | in every run, once all messages a snapshot counts are received, the next update brings the bound to the clock exposed then, for good |
| LookAheadSafety.ExposedClockArrives | src/rempi/rempi_recorder_cdc.cpp:419-477 | so every clock a rank exposes, also while it waits, reaches the bounds of the others with the next snapshot |
| ClockWindows.Endpoint.RecordSend | src/rempi/rempi_cp.cpp:410-426 | the destination's counter grows by one, an unknown rank aborts |
| ClockWindows.Endpoint.RecordRecv | src/rempi/rempi_cp.cpp:398-408 | the source's counter grows by one, an unknown rank aborts |
| ClockWindows.Endpoint.GatherClocks | src/rempi/rempi_cp.cpp:340-369 | every snapshot is replaced by the slot of the predecessor's window that belongs to this rank |
| ClockWindows.Endpoint.SetScatterClock | src/rempi/rempi_cp.cpp:430-442 | every successor sees the clock and the counters stay |
| ClockWindows.Endpoint.UpdateSendClock | src/rempi/rempi_encoder_cdc.cpp:1977-2001 | while a receive is incomplete the exposed clock becomes the higher of itself and the interim clock of its set, if there is one; otherwise the higher of itself and the local clock; aborts exactly for an unknown type |
| ClockWindows.Endpoint.ExposeInterim | src/rempi/rempi_recorder_cdc.cpp:464-473 | once the interim clock of a set is stored and exposed, every successor's window entry is at least that clock |
| ClockWindows.Endpoint.ReplayIsend | src/rempi/rempi_recorder_cdc.cpp:251-287 | counts, sends with the local clock, ticks, exposes; complains exactly when the exposed clock was higher |
| ClockWindows.Endpoint.SyncClock | src/rempi/rempi_clock.cpp:70-105 | the local clock passes every received clock in turn and ends above all of them; without a receive it stays, apart from the tick for a failed test in REP mode |
| ClockWindows.RecvClocksAre | src/rempi/rempi_clock.cpp:89-92 | the clocks taken are those at the positions of receives, in order |
| ClockWindows.Endpoint.UpdateMaxRecvedClock | src/rempi/rempi_msg_buffer.cpp:205-219 | keeps the maximum per sender |
| ClockWindows.Endpoint.HasInFlightMsgs | src/rempi/rempi_cp.cpp:371-396 | more counted by the sender than received here, an unknown rank aborts |
| ClockWindows.Endpoint.ChooseUpdate | src/rempi/rempi_encoder_cdc.cpp:484-542 | chooses the update the protocol allows; aborts only for a missing predecessor or bound |
| ClockWindows.Endpoint.UpdateRecvClocks | src/rempi/rempi_encoder_cdc.cpp:558-617 | in every matching set, for every listed sender that was not probed: with nothing on the way the bound becomes the higher of itself and the snapshot's clock, or the collective marker; with something on the way or pending the higher of itself and the highest clock received; all others stay; aborts exactly when a looked-up bound or predecessor is missing; a set flag means some bound rose |
| ProtocolReplay.LagStays | src/rempi/rempi_encoder_cdc.cpp:569-601 | a matching set whose bound is not above that of a set known longer stays so at every update |
| ProtocolReplay.OwnBoundsLag | src/rempi/rempi_encoder_cdc.cpp:1255-1262 | zero and the protocol's own bound are not above the bound of any link at any point of any run |
| ProtocolReplay.AlwaysLag | src/rempi/rempi_encoder_cdc.cpp:558-617 | from the zeros of the loaded chunks on, through every load and every update of a run, no bound a decoder keeps is above the protocol's |
| ProtocolReplay.EndpointLearns | src/rempi/rempi_encoder_cdc.cpp:569-601 | the update a rank makes from its own counters, snapshots and clocks is the update of the protocol |
| ProtocolReplay.BoundsHoldInReplay | src/rempi/rempi_encoder_cdc.cpp:558-617 | in every run bounds that are not above the protocol's hold of all messages of a table that have not arrived |
| ProtocolReplay.FrontierInReplay | src/rempi/rempi_encoder_cdc.cpp:418-617 | in every run the look-ahead bound computed from the bounds kept is one decode ordering may use |
| ProtocolReplay.ReplayUnderProtocol | src/rempi/rempi_encoder_cdc.cpp:418-1973 | in every run of the clock protocol and every replay made along it, with bounds that start as the loaded chunks give them and change by the run's updates only, all calls are allowed, outputs are prefixes of the recording over all chunks, and complete exactly when the last chunk is decoded |
| ProtocolReplay.InterimIsJustified | src/rempi/rempi_encoder_cdc.cpp:1735-1754 | each clock the interim clock is made of is one the protocol lets a waiting rank assume |
| RemoteSlots.CountReaders | src/rempi/rempi_cp.cpp:185-195 | the summed flags are the number of ranks that read each window |
| RemoteSlots.CountIsArrivals | src/rempi/rempi_cp.cpp:198-210 | as many messages are received as ranks announce themselves |
| RemoteSlots.RemoteIndexing | src/rempi/rempi_cp.cpp:170-246 | the slot a rank reads is inside its predecessor's window and is the one written for it |
| RemoteSlots.ReadersDoNotShare | src/rempi/rempi_cp.cpp:212-226 | two readers of one window have different slots |
| MatchingSets.MatchingSetMap.ChangeMatchingSetId | src/rempi/rempi_request_mg.cpp:1034-1051 | every id with the old set gets the new one; aborts outside REP mode |
| MatchingSets.MatchingSetMap.AssignMatchingSetId | src/rempi/rempi_request_mg.cpp:1053-1078 | the ids of a call, in any order, are merged into its set; aborts exactly outside REP mode if an id of the call carries another set |
| MatchingSets.MatchingSetMap.GetMatchingSetIdMap | src/rempi/rempi_request_mg.cpp:1080-1108 | all calls, in any order, are merged one after the other, and the arrays list every id of the map once with its set; aborts exactly outside REP mode if an id would meet a second set, and otherwise every id there has the set of its calls or the one it started with |
| MatchingSets.TogetherStays | src/rempi/rempi_request_mg.cpp:1034-1078 | ids that start in one set stay together |
| MatchingSets.CallsEndTogether | src/rempi/rempi_request_mg.cpp:1053-1093 | all ids of a call end in one set |
| MatchingSets.SharedIdsEndTogether | src/rempi/rempi_request_mg.cpp:1053-1093 | ids of calls that share an id end in one set |
| MatchingSets.OnlyLinkedEndTogether | src/rempi/rempi_request_mg.cpp:1034-1093 | ids end in one set only if linked through shared calls or set ids |
| MatchingSets.OrderCanMatter | src/rempi/rempi_request_mg.cpp:1085-1093 | with a shared set id the result can depend on the order of the calls |
| MatchingSetOrders.OneTakesOver | src/rempi/rempi_request_mg.cpp:1034-1093 | of two sets whose calls keep to themselves one always ends with all of its calls unrelabelled, in every order |
| MatchingSetOrders.EveryOrderIsExact | src/rempi/rempi_request_mg.cpp:1080-1093 | every order of the calls puts exactly the linked ids together if and only if unconnected ids with a set id in common carry the same set ids, at most two |
| MatchingSetOrders.OrderMattersUnlessTidy | src/rempi/rempi_request_mg.cpp:1085-1093 | the same condition holds if and only if the result does not depend on the order of the hash map |
| MatchingSetOrders.StartedIsExact | src/rempi/rempi_request_mg.cpp:1080-1093 | the condition also suffices on top of labels that earlier calls left |
| BasicPipeline.EventList.Push | src/rempi/rempi_event_list.cpp:66-103 | equal neighbouring tests are counted, so that no test is queued behind the same test of the same group; everything pushed is kept in order; a closed list aborts |
| BasicPipeline.EventList.PushAll | src/rempi/rempi_event_list.cpp:106-128 | the last event is queued and the list is closed |
| BasicPipeline.EventList.EnqueueReplay | src/rempi/rempi_event_list.cpp:358-385 | a counted event adds its copies to what will be handed out |
| BasicPipeline.EventList.DequeueReplay | src/rempi/rempi_event_list.cpp:153-244 | hands out the next single event, none exactly when nothing is left |
| BasicPipeline.CountDown | src/rempi/rempi_event.cpp:67-104 | popping a counted test takes off one copy |
| BasicPipeline.WriteChunk | src/rempi/rempi_encoder_basic.cpp:143-224 | size, then eight ints per event |
| BasicPipeline.ChunkLayout | src/rempi/rempi_encoder_basic.cpp:143-224 | byte offsets of a chunk: the size, then 32 bytes an event with its eight ints in their order |
| BasicPipeline.DecodeEvent | src/rempi/rempi_encoder_basic.cpp:279-299 | tests keep all fields, receives their rank, other types abort |
| BasicPipeline.ReadChunk | src/rempi/rempi_encoder_basic.cpp:238-321 | a chunk reads back as it was written |
| BasicPipeline.RecordAndReplay | src/rempi/rempi_encoder_basic.cpp:472-498 | whatever was pushed comes out again, however the queue is cut into chunks |

## Left out

- Collectives in the clock protocol: the marker clock 3 is handled where decode ordering and the bound computation meet it, but which ranks join a collective and what the clock library does then is not part of this model.
- zlib compression of records: the library is not part of this model; bytes are written and read uncompressed.
- The window memory and the message transport: one-sided reads are single atomic steps, channels are sequences of clocks.
- Threads: the queues between the application and the I/O thread are sequential lists; `rempi_spsc_queue` is not modelled.
- Probed messages: a probe only suppresses an update of a bound, for any reason and at any time.
- The matching of MPI requests, buffers, communicators and tags: messages are identified by clock and sender.
- extract_encoder_input_format_chunk of the CDC encoder: where a chunk is cut is not modelled; that no table ends inside a group is checked by format.
- The state machine of progress_decoding: opening and closing the record are not modelled; its states of reading, decoding and inserting are the load and ask turns of `ChunkRuns`.
- The footer behind the separator: its ranks and matching sets are computed (`RemoteSlots`, `MatchingSets`), their bytes are not modelled.
- Unused code: `rempi_clock_delta_compression_2`, the row-wise, permutation-diff, zlib and simple zlib encoders, bit packing, the older insertion loop of the CDC encoder.
- PMPI wrappers, Fortran, environment settings, file streams, call-stack hashing and validation codes.
- ReplaySteps.Frontier: while all senders are in a collective, that everything still to come is above everything that has arrived is assumed.
- ClockDelta.UpdateStartIt: the source tests the bit one position past the last when every column is matched, a read outside the vector; the model stops at the last bit, so nothing is said of what that read finds.
- ClockWindows.Endpoint.UpdateRecvClocks: the flag is overwritten by every look-ahead update, so that an unset flag says nothing; only that a set flag means a bound rose is stated.
- ProtocolReplay.AlwaysLag: one call of update_local_look_ahead_recv_clock is a number of turns, one for each sender and all its sets together; the program goes set by set, which makes no difference as each bound depends on nothing else that changes.
- ProtocolReplay.ReplayUnderProtocol: that messages reach the decoder in their sender's order, and that none is received which the decoder was not given when it is asked, is assumed.
