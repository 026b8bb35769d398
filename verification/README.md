# ExSeisDat: distributed sort, metadata and collective I/O, verified

A Dafny model of the parallel seismic I/O library: how traces are sorted over
ranks, how their parameters are numbered, stored and printed into trace headers,
and how bytes and tables move between ranks and files.

* **Sorting.** `NearestNeighbour` is the lock-step meaning of one exchange round on
  blocks held by ranks; `SortProtocol` is the same loop as a state machine over
  single sends, deliveries, local sorts and reductions with in-order messages
  (section 3.5 of MPI 3.1); `SortTheorems` relates all its runs to the lock-step
  form. `ParamProtocol` and `ParamTheorems` do the same for the sort of trace
  parameters, in which a region travels as four messages with one tag;
  `RowProtocol` applies them to the vectors of real parameters (`ParamColumns`) and
  the comparisons of every sort type. `DistributedSort` and `ParamSort` are the two
  imperative versions in lock step, `ParamExchange` the staging of a region, and
  `TraceOrder` the composition of two sorts into an inverse permutation.
  `Comparators` holds the orders, `TraceRows` reads a row of parameters as a trace,
  `HeaderOrder` says the same of header fields by their numbers,
  `TraceNumbers` says what the trace numbers are good for, and `Sorting`, `Blocks`
  and `SortIndex` are what all of this rests on. `Sort` stands for `std::sort`: with
  no ties the result is unique.
* **One file from end to end.** `Cache` numbers the traces, `TraceCache` builds the
  rule and fills the parameters, `TraceIO` reads arbitrary lists, `Output` moves the
  traces to their places in turns, and `Flow` puts a file in order.
* **Metadata.** `RuleTable` is the rule with its dense numbering, `Params` the
  vectors indexed by it, `Scale` and `SharedScale` the fixed-point scales of bytes
  69-72 of the trace header (section 7 of SEG Y rev 1), `HeaderBytes` and
  `HeaderCodec` the bytes, `StandardHeader` the same in the byte numbers of the
  standard. Machine integers wrap explicitly; `geom_t` is a real.
* **Collective I/O.** `Collective` and `Chunks`: splitting under a size limit,
  views, padding, and the log of collective operations that has to agree on all
  ranks (section 5.13 of MPI 3.1).
* **Reshaping.** `Decomposition` and `Redistribution` for block-aligned extents and
  neighbour exchange, `RedistributionProtocol` for the same exchange as a state machine
  over posts, reads, writes and waits, `GlobalArray` (class `Uniray`) and `Gather` for
  the table of gathers over ranks.

Where the code meets a promise only under a condition, the condition is exact:

* The guard in front of the sort admits 3 traces on a rank. Several ranks then
  exchange nothing; `OrderExactness` says when all runs bring every file into order,
  for every sort type, and `RegionExactness` the same for the vector form.
* Below 3 traces on some rank the guard logs an error and returns an empty list on
  every rank, and `calcFuncS` copies as many numbers out of it as the rank has
  traces; `CopyFits` says when that stays inside the list. What follows a copy from
  outside is not described.
* `gtn` can collide for several files on several ranks; `GtnExactness` says when it
  does not.
* The table of gathers over-counts a run that is interrupted on one rank and taken
  up at the start of the next; `TableExactness` says when it is right. On the last
  rank the code reads one entry past the end of the gathered first keys; the result
  does not depend on what is there.
* `addCopy` overwrites what is bound to the copy field without renumbering;
  `AddCopy` says when the numbering survives.
* A shared scale can overflow the larger of two values (`SharedScaleCanOverflow`). A
  value comes back if and only if the number stored for it under the scale of its
  row fits 32 bits (`WriteThenRead`); four decimal places of all values fitting 32
  bits is enough (`FourPlacesFit`).
* Rounding can carry a large value over the limit its scale was chosen for
  (`CoarseCanOverflow`), and 2147483647.5 over the limit for scale 1;
  `DescaledExactness` gives the values for which the number stored under their own
  scale fits.
* `blockDecomp` promises that its assertion cannot fail; `AssertionExactness` says
  for which numbers it holds. A range within one block, such as a last step of the copy
  that is shorter than a block, wraps the count of blocks; `BlockExtents` says when the
  extents tile the range all the same.

Several ranks are modelled together: a collective method works on the data of all
ranks, and what a rank does alone is a method of its own. Ranks share one rule.

## Model

| member | source | states |
|---|---|---|
| NearestNeighbour.RegionIsQuarter | src/sort.cc:542-545 | The region is the largest number of items that fits four times into every block |
| NearestNeighbour.RoundRefines | src/sort.cc:487-512 | For any number of ranks and block sizes, one exchange round acts on the concatenated owned data as: sort every block of the partition shifted right by `regionSz`, then sort every block of the original partition |
| NearestNeighbour.RoundConserves | src/sort.cc:487-512 | No round loses, duplicates or invents an item, although borrowed items exist twice in the middle of it |
| NearestNeighbour.RoundProgress | src/sort.cc:489-527 | A round either changes nothing, and then every window and every block was sorted already, or it strictly lowers the number of inversions of the concatenation |
| NearestNeighbour.RoundsBounded | src/sort.cc:489-527 | k rounds that all change something use up at least k inversions of the starting data |
| NearestNeighbour.QuietRoundSorted | src/sort.cc:514-527 | With `regionSz` at least 1, a round that changes nothing has found the whole concatenation sorted |
| NearestNeighbour.StopsSorted | src/sort.cc:489-531 | What the loop leaves behind is the sorted arrangement of its input, after at most N(N-1)/2 + 1 rounds |
| SortProtocol.ReachedNext | src/sort.cc:355-452 | Every state an asynchronous run can reach is described by the lock-step rounds: each statement, delivery and reduction of each rank keeps the invariant that ties buffers and messages under way to the current round |
| SortProtocol.AllReduceKeeps | src/sort.cc:514-526 | When the ranks meet in the reduction their buffers are exactly those of the lock-step round and the remembered buffers those of the round before |
| SortTheorems.NoDeadlock | src/sort.cc:355-452 | An unfinished run always has an action left, even if sends wait for their receives |
| SortTheorems.InterleavingsAgree | src/sort.cc:355-452 | Whatever the order of sends, deliveries and local sorts, the buffers at each reduction are those of the lock-step form |
| SortTheorems.RunsTerminate | src/sort.cc:489-527 | Every run is finite, with an explicit bound in the number of ranks and the inversions of the input |
| SortTheorems.EveryRunSorts | src/sort.cc:464-532 | Every finished run, under every interleaving, leaves each rank with its old number of items and the concatenation sorted and a permutation of the input |
| SortTheorems.RunCompletes | src/sort.cc:464-532 | Every run so far can be extended to a finished one |
| SortTheorems.ZeroRegionResult | src/sort.cc:542-545 | With `regionSz` 0 nothing is exchanged: every finished run just sorts each rank's own block |
| SortTheorems.RegionExactness | src/sort.cc:539-563 | With a region of a quarter of the smallest block, the vector sort is right for every input, in every run, exactly if there is one rank, or every block has at least 4 items, or only one rank has any items |
| SortTheorems.TooFew | src/sort.cc:539-563 | For every other distribution: an input and a finished run whose result is not sorted |
| DistributedSort.VectorSort.SendLeft | src/sort.cc:427-452 | In place on all ranks, the head of each block is appended to the left neighbour's buffer, as in the lock-step specification |
| DistributedSort.VectorSort.SendRight | src/sort.cc:390-416 | The end of each window overwrites the head of the right neighbour's buffer |
| DistributedSort.VectorSort.AllReduceChanged | src/sort.cc:514-526 | The reduction yields 0 exactly if no rank's owned items changed in the round |
| DistributedSort.VectorSort.Exchange | src/sort.cc:490-512 | The four steps in sequence produce the next lock-step round |
| DistributedSort.VectorSort.Run | src/sort.cc:464-532 | The loop ends, within the inversion bound, with the vectors holding the sorted concatenation in blocks of the old sizes (or each block sorted, if `regionSz` is 0) |
| ParamProtocol.PutOk | src/sort.cc:601-623 | In-order delivery per source and tag: the message that arrives fills the vector of `rprm` it belongs to, although the four messages of an exchange, and those of all exchanges, look alike |
| ParamProtocol.ActionKeeps | src/sort.cc:587-742 | Each statement of each rank (staging, four sends and four receives per direction, waits, unstaging, sorts) and each transfer of a single message keeps the invariant that ties buffers, staging structures and messages under way to the current lock-step round |
| ParamProtocol.AllReduceKeeps | src/sort.cc:814-829 | When the ranks meet in the reduction, `temp1` holds the rows of the lock-step round and `temp2` those before it |
| ParamTheorems.ReachedNext | src/sort.cc:768-830 | Every state a run of the parameter form can reach is described by the lock-step rounds, none of which but a final one changed nothing |
| ParamTheorems.NoDeadlock | src/sort.cc:587-742 | An unfinished run of the parameter form always has an action left, even if every send waits for its receive |
| ParamTheorems.InterleavingsAgree | src/sort.cc:587-742 | However the messages of the exchanges are scheduled, the rows at each reduction are those of the lock-step form |
| ParamTheorems.RunsTerminate | src/sort.cc:768-830 | Every run of the parameter form is finite, with an explicit bound in the number of ranks and the inversions of the input |
| ParamTheorems.EveryRunSorts | src/sort.cc:748-835 | Every finished run of the parameter form leaves the rows sorted over the ranks in blocks of the old sizes (with an empty region, each block sorted) |
| ParamTheorems.RunCompletes | src/sort.cc:748-835 | Every run of the parameter form so far can be extended to a finished one |
| ParamColumns.RowsSurvive | src/sort.cc:625-659 | The four vectors of some rows, read with the same rule, are those rows again |
| ParamColumns.VectorsAreColumns | include/file/dynsegymd.hh:406-428 | Conversely the vectors of a structure hold its rows and nothing else: every place is that of one field of one row |
| RowProtocol.RowsLossless | src/sort.cc:587-742 | For any rule, what the protocol theorems ask of staging and unstaging holds of the vectors of parameters |
| RowProtocol.RowsReady | src/sort.cc:748-766 | For every sort type, rows told apart by both trace numbers are a sort the protocol theorems are about |
| RowProtocol.EveryRowRunSorts | src/sort.cc:748-835 | So every finished run on traces, under any schedule of the messages, sorts them by the sort type |
| RowProtocol.OutcomesAgree | src/sort.cc:748-835 | No two schedules, and no schedule and the lock-step sort, can be told apart by the rows they leave |
| ParamSort.SortRange | src/sort.cc:776-792 | Sorting the rows of a range through an index vector and `cpyPrm` to and from a scratch structure sorts them in place and leaves the other rows alone |
| ParamSort.SendLeft | src/sort.cc:669-742 | On all ranks, staged row by row and sent as vectors, the first rows of each structure replace the last rows of its left neighbour's |
| ParamSort.SendRight | src/sort.cc:587-660 | The last rows of each structure replace the first rows of its right neighbour's |
| ParamSort.AllReduceChanged | src/sort.cc:814-827 | The reduction of the signed comparisons of `gtn` is 0 exactly if every rank's own rows have the numbers they had before the round |
| TraceNumbers.NumbersDecide | src/sort.cc:814-819 | In every round, equal numbers everywhere mean that no rank's rows have changed, because the job's numbers are distinct and no row is lost |
| TraceNumbers.RangesTotal | src/sort.cc:776-812 | The ranges sorted in a round never contain stale rows: they are rows of the job, so the order is total on them |
| ParamSort.SortP | src/sort.cc:748-835 | The whole sort on parameter structures: with `temp1`, `temp2` and `temp3` per rank it ends, within the inversion bound, with the rows of all structures in comparator order and block sizes kept (with an empty region, each structure sorted) |
| ParamExchange.SendRegion | src/sort.cc:589-653 | The messages sent are the four vectors of the region, which depend on nothing but its rows |
| ParamExchange.ReceiveRegion | src/sort.cc:655-659 | From the vectors of a region the receiver rebuilds whole rows: only the target rows change, each to the row that was sent |
| TraceOrder.SortList | src/sort.cc:539-578 | The distributed sort of (number, position) pairs returns every position once, for any numbers of items; listed by increasing number if something can be exchanged, there is one rank, or every number is on the right rank already |
| TraceOrder.PositionsInvert | src/sort.cc:539-578 | Sorting increasing numbers by value and listing positions inverts the arrangement they came from |
| TraceOrder.SortTraces | src/sort.cc:837-847 | Both sorts together, for any numbers of traces: the structures hold the sorted rows, and in file order the lists give each input trace the place where its row now is, each place once |
| HeaderOrder.TraceFields | src/sort.cc:46-322 | Which header field each compared value comes from, by number: setting field 20 sets xSrc and nothing else, and so on for 21 to 23, 14, 26, 27, 1 and 2; no other field matters |
| HeaderOrder.KeysAreFields | src/sort.cc:34-322 | The keys of each of the nine sort types in terms of header fields alone: coordinates, squared distance, unsigned offset, inline and crossline; a field that is missing counts as zero |
| Comparators.LessIsLex | src/sort.cc:46-322 | Each of the nested comparisons is the dictionary order of its keys with the local trace number as last resort |
| Comparators.ComparatorsAreOrders | src/sort.cc:46-322 | Every sort type is a strict weak order, as `std::sort` demands |
| Comparators.NoTies | src/sort.cc:46-322 | With distinct local trace numbers no two traces tie, for any sort type |
| Comparators.CheckOrder | src/sort.cc:329-345 | The scan accepts exactly if each trace comes before the next |
| Comparators.CheckMeansSorted | src/sort.cc:329-345 | On traces read in file order the scan accepts exactly the parts whose keys never decrease |
| SortIndex.GatherIsSort | src/misc.cc:17-25 | Following the sorted index vector lists the items in sorted order |
| SortIndex.GetSortIndex | src/misc.cc:17-25 | The index vector is a permutation of the positions along which the list never decreases |
| Cache.GetCache | src/cache.cc:34-52 | The running offsets give every trace of every file its `gtn` and `ltn` |
| Cache.GtnExactness | src/cache.cc:44-45 | Over all ranks `gtn` is strictly increasing exactly if no piece with traces starts, in its file, earlier than the previous piece with traces started in its own |
| Cache.OneFile | src/cache.cc:38-52 | One file on any number of ranks meets that condition |
| Cache.OneRank | src/cache.cc:38-52 | Any number of files on one rank meets it |
| Cache.TwoFilesCollide | src/cache.cc:44-45 | Files of 6 and 2 traces on two ranks: two different traces get `gtn` 8 |
| Cache.LtnIdentifies | src/cache.cc:46-48 | `ltn` tells apart any two traces of any two files |
| TraceIO.RemoveDuplicates | src/rfilesegy.cc:256-262 | The list handed on is strictly increasing and holds exactly the requested numbers; the counter kept while scattering finds the right entry for every request |
| TraceIO.ReadTraceNonMonotonic | src/rfilesegy.cc:249-283 | For any non-empty list, in any order and with repetitions, entry j has every header field of trace offset[j] with its value and no other, except the local number, which is offset[j], and its samples; entries outside the target range stay |
| Output.StartSingle | src/flow.cc:237-290 | Chunked reading, local re-sorting and writing puts trace ilst[k] into slot olst[k] for all k, every sample and every header field but the local number unchanged, and touches no other slot; the sequence of collective operations on both files, padding turns and the chunks inside each list transfer included, is a function of the list lengths of all ranks alone |
| Output.AddFile | src/flow.cc:87-105 | The ranks' lists cut the file into consecutive ranges |
| TraceCache.MakeRule | src/flow.cc:559-564 | The rule of the sort has exactly the eleven listed fields and both numbers, with a column of the right type for every parameter the comparisons read, and no Copy entry |
| TraceCache.CacheRank | src/cache.cc:38-52 | Row i of a rank's parameter structure reads as the header of the file's trace with both numbers filled in |
| Flow.SortedIsStable | src/flow.cc:587-589 | Sorted rows, read as a list of traces, are a stable arrangement of the file by its keys |
| Flow.EachIsRankwise | src/flow.cc:587-589 | Rows sorted rank by rank keep every trace within the extent of its rank, in stable order there |
| Output.WriteAll | src/flow.cc:237-290 | If the lists of all ranks together are a permutation, every slot of the output is written with its trace, samples and header fields unchanged but for the local number, and every rank takes part in the same sequence of collective operations |
| Flow.CopyFits | src/flow.cc:440-446 | Below 3 traces on some rank the lists copied from are empty: the copy stays inside them exactly if no rank has fewer than 3 traces or the file has none |
| Flow.Operation | src/flow.cc:577-590 | The operation of the sort: nothing below 3 traces on some rank, otherwise lists that give every trace its place in the output order, each place once, which is the order that every run of the sort leaves, whatever its schedule |
| Flow.EveryRunOrders | src/sort.cc:748-835 | Every finished run on a file, under any schedule of the messages, leaves the traces in stable order by their keys if there is one rank or every rank has at least 4 traces, and in stable order rank by rank otherwise |
| Flow.RunExists | src/sort.cc:748-835 | For every file, rule and sort type there is such a run |
| Flow.OrderExactness | src/flow.cc:577-590 | For each sort type, and of the numbers of traces and ranks the guard lets through: every run on every file brings it into the order of the sort type exactly if there is one rank or every rank has at least 4 traces |
| Flow.ThreeIsTooFew | src/flow.cc:577-590 | The failing file, for every sort type at once: descending traces on several ranks that exchange nothing stay on their ranks |
| Flow.SortFile | src/flow.cc:559-591 | End to end for one file: the copy of the lists stays in range exactly if no rank has fewer than 3 traces (or there are none), and then every place of the output is written with the samples and header fields of one input trace, each trace once, in the order that every run of the sort leaves: of two places (of one rank, if some rank has only 3 traces) the headers are in order by the fields of the sort type, equal ones in file order; every rank takes part in the same collective operations; a trace is one value here, of whose header the source carries the fields of the rule of the set and the raw copy its default rule asks for (src/flow.cc:248-276) |
| Collective.WholeSplits | src/datampiio.cc:386-392 | Moving a + b bytes through a view is moving a bytes and then b more from where the first stopped |
| Collective.WriteMeaning | src/datampiio.cc:402-436 | After a write through a view without repeated positions, byte i of the buffer is at its position in the file |
| Collective.WriteFrame | src/datampiio.cc:402-436 | A write changes no byte of the file outside the positions of the view |
| Collective.WriteThenRead | src/datampiio.cc:312-366 | Reading back through the same view returns the bytes that were written |
| Collective.BlockLands | src/datampiio.cc:319-366 | Byte j of block i of a strided read comes from offset + i*osz + j |
| Collective.ListedBlockLands | src/datampiio.cc:133-156 | Byte j of block i of a listed read comes from offset[i] + j |
| Collective.StridedDistinct | src/datampiio.cc:319-366 | Strided blocks with bsz <= osz never overlap, so a strided write is well defined |
| Collective.Mpiio.ContigIO | src/datampiio.cc:369-398 | The chunked transfer has the effect of the unlimited one; the sequence of collective operations depends only on the gathered sizes and is therefore the same on every rank |
| Collective.Mpiio.TransferChunks | src/datampiio.cc:386-392 | The chunks cover the rank's own data once, in ceil(sz / max) calls |
| Collective.Mpiio.PadCalls | src/datampiio.cc:394-397 | The empty calls move nothing and complete the sequence to that of the busiest rank |
| Collective.Mpiio.TransferRange | src/datampiio.cc:312-317 | A contiguous transfer of any length moves byte offset + k of the file to or from slot k and touches nothing else; every rank makes one gather and ceil(largest / maxSize) transfers |
| Collective.Mpiio.TransferView | src/datampiio.cc:319-347 | The nested strided transfer restores the view, and counts an overflow exactly if its range exceeds maxSize |
| Collective.Mpiio.TransferStrided | src/datampiio.cc:349-366 | For 0 < bsz <= osz <= maxSize the chunked strided transfer moves byte offset + (k / bsz) * osz + k % bsz of the file to or from slot k and touches nothing else, the overflow branch is never entered, and all ranks issue the same operations at both levels |
| Collective.Mpiio.TransferListed | src/datampiio.cc:133-156 | One view over a list of blocks moves exactly those blocks and is reset |
| Collective.Mpiio.ListIO | src/datampiio.cc:402-436 | The chunked list transfer moves byte offset[k / bsz] + k % bsz of the file to or from slot k and touches nothing else (written blocks must not overlap), and its operations follow from the gathered list lengths alone |
| Collective.InnerFits | src/datampiio.cc:319-366 | Inside every chunk of a strided transfer the nested transfer is a single call on every rank |
| Collective.ChunkBytes | src/datampiio.cc:326-333 | No chunk reaches beyond maxSize, in the file or in the buffer |
| Collective.StridedLog | src/datampiio.cc:349-398 | The nested sequence is set view, gather, transfer, reset view, once per chunk of the busiest rank |
| Chunks.RemainingPads | src/datampiio.cc:380-384 | The unsigned expression for the number of empty calls is the difference of the two ceilings and never negative |
| Decomposition.DecomposeTiles | util/sglobal.cc:8-16 | The even extents tile [0, sz) in rank order; the first sz % numRank of them are one item longer than the others |
| Decomposition.BlockDecomp | util/sglobal.cc:39-76 | In 64-bit unsigned arithmetic, on any range of file positions: the assertion holds exactly if the range reaches the end of the block it starts in or 2^64 is a multiple of the block size; in the first case the extent is the one between two block boundaries, idle ranks included; in the second the count of blocks wraps, and the extents that follow are given |
| Decomposition.BoundariesTile | util/sglobal.cc:39-76 | Those boundaries rise from 0 to sz, so the extents of all ranks tile the range in order |
| Decomposition.BoundariesAligned | util/sglobal.cc:39-76 | Every boundary strictly inside the range is a multiple of bsz in the file |
| Decomposition.WholeBlocks | util/sglobal.cc:49-50 | What remains between the first and the last block is a whole number of blocks |
| Decomposition.AssertionExactness | util/sglobal.cc:42-50 | For all 64-bit numbers, in 64-bit unsigned arithmetic throughout, the assertion in the code holds exactly if the number of wraps times 2^64 is a multiple of the block size, where the end of the range and the remaining length each can wrap once |
| Decomposition.AssertionFails | util/sglobal.cc:42-50 | A range too short for its blocks, and a range that ends beyond 2^64, on which it fails |
| Decomposition.BoundariesStayNear | util/sglobal.cc:39-76 | For any numbers of blocks and ranks, each boundary for one file offset lies between the two neighbouring boundaries for any other file offset |
| Redistribution.MakeRoom | util/makerep.cc:57-66 | Room is made at both ends and the rank's old bytes sit where the new extent expects them |
| Redistribution.Send | util/makerep.cc:68-96 | What leaves for either side are the bytes of the global string between the old and the new boundary, and nothing if the boundary moves outwards |
| Redistribution.MessagesMatch | util/makerep.cc:68-96 | Every message that is sent is expected by its receiver with the same length, and carries the bytes between the old and the new boundary |
| Redistribution.DistribToDistrib | util/makerep.cc:44-117 | In lock step: if old and new extents tile the same range and each new boundary stays within the two adjacent old extents, every rank ends with exactly the bytes of its new extent |
| RedistributionProtocol.RunsStayInBounds | util/makerep.cc:57-96 | With sends and receives posted on the live vector, which is read and written at any time between posting and wait: in every run every access stays inside the vector and every message is as long as the receive posted for it |
| RedistributionProtocol.StepKeeps | util/makerep.cc:57-117 | Every step of every rank and message keeps the invariant that ties vectors and messages to the global string: what is written never touches what is still to be read |
| RedistributionProtocol.EveryRunRedistributes | util/makerep.cc:44-117 | Every finished run, whatever the order of reads and writes, leaves every rank with exactly the bytes of its new extent |
| RedistributionProtocol.NoDeadlock | util/makerep.cc:68-110 | As long as a rank has not ended some step can be taken, even if sends wait for their receives |
| RedistributionProtocol.RunsTerminate | util/makerep.cc:44-117 | No run takes more than six steps a rank |
| RedistributionProtocol.RunCompletes | util/makerep.cc:44-117 | Every run so far can be extended to a finished one |
| Redistribution.BlockExtents | util/makerep.cc:133-133 | The extents of all ranks tile the range exactly if it reaches the end of the block it starts in, or there is one rank, or blocks are single bytes; in the first case they are those between block boundaries |
| Redistribution.ShortTile | util/sglobal.cc:39-76 | The failing family: on a range within one block with several ranks the first rank takes more than there is, or the second does not start where the first ends |
| Redistribution.WriteArb | util/makerep.cc:123-144 | The range is written completely and nothing else is; every rank then holds the bytes of its block-aligned extent |
| Redistribution.BlockTilesNear | util/makerep.cc:190-193 | Block-aligned extents for one file offset meet the neighbour condition for any other |
| Redistribution.HeadlessTile | util/makerep.cc:177-187 | Extents of a file without its header are those of the payload at the offset behind it, so the first step of the copy can be chained like any other |
| Redistribution.DropHeader | util/makerep.cc:177-187 | The rank at the start of the file drops the header and the others renumber their bytes: every rank then holds its extent of the payload |
| Redistribution.WriteCopies | util/makerep.cc:190-193 | From block-aligned extents for any offset, those behind a dropped header included, repeated writes at increasing offsets produce identical copies of the range, however few blocks there are |
| GlobalArray.Uniray.FindOwner | include/share/uniray.hh:88-91 | The scan stops, within the ranks, at the one whose block contains item i |
| GlobalArray.Uniray.Set | include/share/uniray.hh:82-102 | Local store or one-sided put, the global array changes in item i only; an index beyond the end is ignored |
| GlobalArray.Uniray.Get | include/share/uniray.hh:108-133 | Any rank reads item i of the global array, or the empty value beyond the end |
| Gather.LocalRuns | src/gather.cc:30-44 | The loop that opens and counts runs computes the run-length encoding of a rank's traces |
| Gather.RunsExact | src/gather.cc:30-44 | The encoding expands to the traces, has no empty run and no two equal neighbours |
| Gather.RunsUnique | src/gather.cc:30-44 | It is the only encoding with these properties |
| Gather.RunsConcat | src/gather.cc:52-59 | The encoding of two parts in sequence joins their encodings, melting the meeting runs if they agree |
| Gather.GatherRank | src/gather.cc:52-62 | A rank drops a run that began further left and adds to its last run what continues further right, over any number of ranks and whatever is read beyond the end of the gathered keys |
| Gather.RightStep | src/gather.cc:52-62 | One rank more keeps table and encoding equal exactly if the key a rank is entered with is not left on it and taken up again by the next rank |
| Gather.TableExactness | src/gather.cc:52-62 | The distributed table is the sequential encoding of all traces if and only if no key that crosses onto a rank is left there and taken up again by the next rank; the number of rows is right in any case |
| Gather.ContiguousNeverReturns | src/gather.cc:17-25 | Data in which equal keys stand together meets that condition |
| Gather.ReturningRun | src/gather.cc:55-59 | Three ranks on which a run of 3 traces is counted as 4 |
| Gather.GetGathers | src/gather.cc:26-71 | The collective operation leaves the table, row by row at its global index, in the global array, with the exact condition for it to be the sequential encoding |
| RuleTable.Rule.RmRule | src/dynsegymd.cc:265-298 | Removal takes one field out, moves the higher numbers of its type down by one, whatever the walk order, and keeps the numbers of every type exactly 0 .. count-1 |
| RuleTable.WithoutDense | src/dynsegymd.cc:293-295 | Renumbering after a removal restores the bijection between fields of a type and 0 .. count-1 |
| RuleTable.WithDense | src/dynsegymd.cc:226-255 | Giving a new field the old count as its number keeps the bijection |
| RuleTable.DenseCounts | src/dynsegymd.cc:321-333 | So each counter, which sizes a parameter vector, is the number of fields of its type |
| RuleTable.Rule.AddLong | src/dynsegymd.cc:226-232 | Adding or replacing a field: the whole new table and all counters, numbering kept |
| RuleTable.Rule.AddShort | src/dynsegymd.cc:234-240 | The same for 16-bit fields |
| RuleTable.Rule.AddSEGYFloat | src/dynsegymd.cc:242-248 | The same for scaled fields |
| RuleTable.Rule.AddIndex | src/dynsegymd.cc:250-255 | The same for index fields |
| RuleTable.Rule.AddCopy | src/dynsegymd.cc:257-263 | It does not remove what it overwrites: the numbering survives if and only if the rule copies already or nothing is bound to the copy field |
| RuleTable.OverwriteBreaks | src/dynsegymd.cc:257-263 | Overwriting a field with one of another type always leaves a number of the old type unused |
| StandardHeader.PredefinedIsStandard | src/dynsegymd.cc:113-207 | Every predefined field has the type and the bytes that the standard gives it, and scale fields at bytes 69, 71 and 201 |
| StandardHeader.FieldWritten | src/dynsegymd.cc:459-537 | In byte numbers of the standard: the bytes of each field hold its value, most significant byte first, modulo 2^32; Floats in units of the scale found at the bytes of their scale |
| StandardHeader.FieldRead | src/dynsegymd.cc:539-588 | Conversely each field is read from those bytes |
| RuleTable.DefaultFields | src/dynsegymd.cc:22-26 | The ten default fields, by number |
| RuleTable.ExtraFields | src/dynsegymd.cc:28-34 | The fifteen extra fields, by number |
| RuleTable.Rule.AddRule | src/dynsegymd.cc:113-207 | A predefined field is added exactly if it has a definition and is not there yet; otherwise nothing changes |
| RuleTable.Rule.AddRules | src/dynsegymd.cc:426-456 | Merging another rule adds exactly its missing fields, in any walk order, with their types and places, and leaves the present ones alone |
| RuleTable.Rule.constructor | src/dynsegymd.cc:69-100 | A rule built from lists holds the two index fields and every listed field that has a definition, densely numbered |
| Params.SlotApart | include/file/dynsegymd.hh:411-421 | Two slots of a vector coincide only for the same row and the same column |
| Params.Param.SlotsDistinct | include/file/dynsegymd.hh:411-421 | On a valid rule, different fields of a type or different rows never share a slot |
| Params.Param.SlotInside | src/dynsegymd.cc:321-333 | Every field of every row has its slot inside the vector |
| Params.Param.GetPrm | include/file/dynsegymd.hh:406-428 | The value of the field, converted to the requested type |
| Params.Param.SetPrm | include/file/dynsegymd.hh:438-458 | The field holds the value, cut to its column's type; every other field of every row is unchanged |
| Params.CastMeaning | include/file/dynsegymd.hh:406-458 | What setting and getting do to values a column cannot hold: digits after the point are dropped, whole numbers lose their high bits |
| Params.CastBack | include/file/dynsegymd.hh:406-458 | A value the column can hold comes back unchanged through set and get |
| Params.CpyBlock | src/dynsegymd.cc:380-391 | With one rule, copying rows as blocks replaces row k of the target by row j of the source and nothing else, even inside one structure |
| Params.CpyFields | src/dynsegymd.cc:392-423 | With two rules, every common field of one type becomes that of the source, in any walk order, and nothing else changes |
| Params.CpyPrm | src/dynsegymd.cc:365-424 | Both paths meet one specification, so the block copy equals the field-by-field copy; null structures are left alone |
| Scale.DeScale | src/segymd.cc:24-67 | The two loops with early returns find the scale of the specification |
| Scale.HoldsExactness | src/segymd.cc:52-61 | The wrap-around test is sound and complete: it accepts exactly if the scaled value fits 32 bits and keeps the whole part |
| Scale.ScaleFactors | src/segymd.cc:18-22 | A positive scale multiplies, a negative one divides, and 0 stands for 1 |
| Scale.NegativeScaleSound | src/segymd.cc:42-62 | A negative scale -S guarantees that round(val*S) fits 32 bits and decodes to within 1/(2S) |
| Scale.FourPlacesUnlessRejected | src/segymd.cc:42-62 | Unless a finer needed scale was rejected, the value decodes to within 1/20000 |
| Scale.FourPlacesKept | src/segymd.cc:42-62 | While four decimal places fit 32 bits no needed scale is rejected, and the value decodes to within 1/20000 |
| Scale.NearExactness | src/segymd.cc:24-67 | Under any scale, a value comes back within half a unit if and only if the number stored fits 32 bits |
| Scale.DescaledExactness | src/segymd.cc:24-67 | For every value, the number stored under its own scale fits 32 bits exactly if the value lies strictly between -21474836490000 and 21474836480000 and, for no d of 1, 10, 100, 1000, 10000, in [2147483647.5 d, 2147483648 d) or (-2147483649 d, -2147483648.5 d] |
| SharedScale.MergeIsMaximum | src/dynsegymd.cc:501-507 | The merge of two scales is the maximum of one total order, so it is commutative and associative |
| SharedScale.SharedUnique | src/dynsegymd.cc:494-507 | The scale shared by a set of values does not depend on the order in which they are met |
| SharedScale.Regrid | src/segymd.cc:24-67 | A value decoded under some scale gets a scale of its own that is no more demanding and stores it without loss |
| SharedScale.SharedGrid | src/segymd.cc:24-67 | Values decoded under one scale can all be stored without loss under the scale they come to share next time |
| SharedScale.SharedScaleCanOverflow | src/dynsegymd.cc:501-507 | Two coordinates that each fit, but not with the scale they share |
| SharedScale.CoarseCanOverflow | src/segymd.cc:31-41 | A value for which rounding overflows although its whole part fits under the chosen scale |
| HeaderBytes.HostOfBigEndian32 | include/share/datatype.hh:38-59 | Reading what was printed returns the number modulo 2^32, as a signed value |
| HeaderBytes.BigEndianOfHost32 | include/share/datatype.hh:38-59 | Every byte is determined by the number that is read |
| HeaderBytes.HostOfBigEndian16 | include/share/datatype.hh:27-75 | The same for 16 bits |
| HeaderCodec.PredefinedLayout | src/dynsegymd.cc:117-206 | Whichever predefined fields a rule picks, they lie inside the 240 bytes and do not overlap, except for shared scale fields |
| HeaderCodec.InsertRow | src/dynsegymd.cc:479-536 | Three passes in any walk order: the header says exactly what the row says and no byte outside the rule's fields changes |
| HeaderCodec.InsertParam | src/dynsegymd.cc:459-537 | The same for all headers of a buffer: header i occupies bytes i * (240 + stride) to + 240, and every byte between or behind the headers, where the samples are, is what it was |
| HeaderCodec.ExtractRow | src/dynsegymd.cc:562-586 | Every printed field becomes what the header says; index fields and other rows stay |
| HeaderCodec.ExtractParam | src/dynsegymd.cc:539-588 | The same for all headers of a buffer: row i is what the header at byte i * (240 + stride) says |
| HeaderCodec.OnlyHeadersMatter | src/dynsegymd.cc:539-588 | What is extracted does not depend on any byte between or behind the headers |
| HeaderCodec.EncodingUnique | src/dynsegymd.cc:485-536 | The bytes written are determined by the row alone, so the walk order of the rule's map cannot matter |
| HeaderCodec.FourPlacesFit | src/dynsegymd.cc:501-536 | If four decimal places of every scaled field of a row fit 32 bits, so do all numbers stored under the scales the fields come to share |
| HeaderCodec.ScaleFromRow | src/dynsegymd.cc:494-521 | The scale in a header is the one that follows from the row, so it can be known before writing |
| HeaderCodec.WriteThenRead | src/dynsegymd.cc:459-588 | Written and read back, 16-bit fields are exact, 32-bit fields are exact if and only if they fit, and scaled fields come back within half a unit of the scale of the row if and only if the number stored fits |
| HeaderCodec.SecondTripChangesNothing | src/dynsegymd.cc:459-588 | For every row, whether its numbers fit or not, what was read back once is written and read again without any change: the round trip is a projection |
| HeaderCodec.RowsComeBack | src/dynsegymd.cc:459-588 | The same equivalences through a whole buffer, row by row |

## Left out

- Sorting.Sort: one sorting function stands for `std::sort`; all results are about items without ties, for which it is the only one.
- SortProtocol: the first local sort, before the loop, happens in the starting state, and MPI error codes are not modelled; the same goes for ParamProtocol.
- ParamSort.SortP: rules with a Copy entry, and rules that differ from rank to rank; one rule object stands for the equal ones of all ranks.
- Params.Param: rounding of `size_t` and 64-bit integers when converted to `double`, and conversions from reals outside the range of the target, which are undefined in the source.
- Params.CpyPrm: rules that carry a Copy entry, whose raw header bytes are copied and parsed in addition.
- HeaderCodec.InsertParam: rules with a Copy entry and rules whose extent is not the full header.
- RuleTable.Rule.constructor: the constructor from a ready-made map, and `extent` for rules without the full header.
- Params.Param.GetPrm: a field the rule does not have, for which the source inserts a null entry and follows it.
- Scale.DeScale: values beyond the range of a 64-bit integer; `lround` on reals is exact.
- GlobalArray.Uniray.Set: index `sz` itself, for which the source reads past its block sizes; ordering of one-sided accesses by different ranks.
- Redistribution.DistribToDistrib: new boundaries beyond the two adjacent old extents, which the source does not handle.
- Redistribution.WriteArb: ranges within one block; `BlockExtents` says when their extents tile the range, and what follows extents that do not is not described.
- Decomposition.BlockDecomp: positions of 2^63 and more, which no file has, apart from `AssertionExactness`.
- Collective.Mpiio.TransferRange: short reads at the end of a file, which leave the buffer as it was, and MPI errors.
- TraceIO.ReadTraceNonMonotonic: empty lists and the null parameter structure; parameters are rows of values here.
- Output.StartSingle: the traces that are moved are values, while the source re-encodes the fields of the rule of the set over a raw copy of the header; what each operation of the sequence moves, byte by byte, is the subject of `Collective`.
- Flow.SortFile: several files in one set, functions applied to the blocks between reading and writing, the header of the output file, and files whose size in bytes exceeds 64 bits.
- The outer replication loop of `mpiMakeSEGYCopy` and its choice of write positions.
- 4D binning, gather-type function unwinding, `getMinMax`, `asciiToEbcdic`, `ReadSEGYModel`.
- AGC, tapers, filters and IBM floating point: numerics.
- The C and C++ interfaces, logging and MPI itself.
