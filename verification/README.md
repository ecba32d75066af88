# RetroWrite and its bzip2 target, verified

This project models, in Dafny, the parts of the repository where a mistake would be silent, and proves them right or
says exactly when they are not.

**bzip2 1.0.8** (`project/retrowrite/targets/bzip2-1.0.8`), the compressor and decompressor that RetroWrite rewrites,
from the bytes handed to `BZ2_bzCompress` to the bytes handed out by `BZ2_bzDecompress`:

- both block sorts (`RotationRank`, `HeaderBits`, `QuickSort`, `FallbackRefine`, `FallbackSort`; `MainCompare`,
  `MainSimple`, `MainQSort`, `Predecessors`, `MainScan`, `MainSort`), what the choice between them can change
  (`SortChoice`), and the inverse of the transform (`Rotations`, `InverseBwt`, `BwtDecode`, `SmallDecode`);
- move to front and zero runs (`MoveToFront`, `MtfCoding`, `ByteMaps`, `MtfEncoder`, `MtfDecoder`);
- bits, Huffman codes and tables in both directions (`BitStream`, `Huffman`, `Tables`, `Sending`, `Receiving`,
  `Symbols`), the making of the codes, why they are the best, and the choice among them (`Heap`, `Forest`, `Optimal`,
  `CodeLengths`, `TableChoice`);
- runs and the check (`RunLength`, `UnRle`, `Crc`);
- the blocks, the stream and the two state machines (`Block`, `Headers`, `Stream`, `BackEnd`, `Compressor`,
  `Decompress`), and that every input, also a corrupt one, decodes to one thing (`Verdict`).

`Decompress.Restore` joins them: whatever calls were made to a compressor, once it has finished, decoding what it
delivered, in either memory layout and with input and output space split in any way, gives back what it consumed.

**The rewriter** (`project/retrowrite`): the register analysis of `cftool` (`Liveness`), the memory check inserted by
the x64 address sanitizer (`Asan`, joined to `Liveness`), the pass that shuffles the instructions of a function
(`Shuffle`), and the backward symbolic evaluation of ARM jump targets (`Symbolic`, `Expressions`, `BackwardEval`,
`EvalSoundness`). `Counting` and `Memory` hold what several of them share.

Code that updates arrays or fields is an imperative method or class proved against a function of the inputs or of the
old state; the theorems about those functions are lemmas beside it. The source's assertions 1001 to 1007, 2001,
2002 and 3001 to 3007 are proof obligations inside these methods (an index in bounds, a loop that must have ended) or
consequences of their contracts.

`dafny verify dfyconfig.toml` checks everything.

## Model

| member | source | states |
|---|---|---|
| Decompress.Restore | project/retrowrite/targets/bzip2-1.0.8/bzlib.c:808-858 | for every finished compressor, either memory layout, every way of cutting the compressed bytes into the inputs of calls and every list of output spaces, what is delivered is a prefix of the bytes the compressor consumed, is all of them as soon as the spaces suffice, and otherwise fills the spaces; no check of the decoder rejects the stream |
| Decompress.Decompressor.BzDecompress | project/retrowrite/targets/bzip2-1.0.8/bzlib.c:808-858 | on any stream and with any space: what was delivered before is kept, at most the space is added, exactly the space on BZ_OK for want of space, a sequence error comes exactly in the idle state, and every other result, with all bytes delivered till then, is what the bits of the stream come to. On a stream that a compressor wrote, resumed anywhere, also inside a run and with the input of later calls: it delivers the next bytes of the expansion of all blocks, reports the end exactly when all is delivered, and leaves the bits behind the stream unread |
| Verdict.GivesOnce | project/retrowrite/targets/bzip2-1.0.8/bzlib.c:808-858 | bits come to one result and one output: for every input, sound or corrupt, neither the memory layout nor the portions of input and space can change what is reported, nor what is delivered before the end, a wait or a stop (of a corrupt stream one may have delivered more of the same bytes than the other) |
| Decompress.StartStream | project/retrowrite/targets/bzip2-1.0.8/decompress.c:197-210 | on any bits: BZ_DATA_ERROR_MAGIC if and only if some of the first three bytes that are there is not that of 42 5a 68, or all are and the fourth is not from 31 to 39; a decompressor for 100000 times the digit if and only if all four are right; else a wait |
| Headers.ReceiveMarker | project/retrowrite/targets/bzip2-1.0.8/decompress.c:222-235 | on any bits: accepted if and only if the bytes of the marker are the next ones, refused if and only if the bytes before one of them come and then another than it, a wait otherwise; exactly the marker is taken |
| Decompress.ReceiveKind | project/retrowrite/targets/bzip2-1.0.8/decompress.c:222-235 | on any bits: a block if and only if 31 41 59 26 53 59 come next, the trailer if and only if 17 72 45 38 50 90 do, a data error if and only if what is there differs from both, else a wait |
| Decompress.Decompressor.NextBlock | project/retrowrite/targets/bzip2-1.0.8/decompress.c:222-264 | on any bits: the result is that of the marker, and behind it that of the block or of the combined check in the trailer. On a sent stream, the next marker leads either to an output set up for the next block or, exactly behind the last block, to the verified trailer; each block takes bits, so the loop ends |
| Decompress.Decompressor.Output | project/retrowrite/targets/bzip2-1.0.8/bzlib.c:813-839 | on any tables: delivered and remaining space add up; a block is passed if and only if it lacks no count and its bytes have the stored check, once they are out, and a data error is what the bits come to; for a sent block the end comes exactly when its run expansion is out |
| Decompress.ReceiveTrailer | project/retrowrite/targets/bzip2-1.0.8/decompress.c:588-612 | on any bits: the end is accepted if and only if the next 32 bits are the combined check of the decoder, else a data error, or a wait if there are fewer; nothing behind them is read |
| Compressor.Compressor.BzCompress | project/retrowrite/targets/bzip2-1.0.8/bzlib.c:407-464 | for every action in every mode: bytes consumed and still to come are conserved; consumed and delivered bytes are only added to, within the space; a sequence error comes if and only if the action does not go on with what was begun (then nothing changes) or a finish moves nothing, a parameter error if and only if a run moves nothing or the action is unknown; a run that succeeds has used up the input or the space; after BZ_STREAM_END the delivered bytes are a complete stream for blocks that stand for all consumed input, each of them the run-length coding of what it stands for, with the tables chosen for it; after a flush all of it is out |
| Compressor.Compressor.HandleCompress | project/retrowrite/targets/bzip2-1.0.8/bzlib.c:360-403 | the loop ends, and in one of three ways: no output space, a finished stream, or all input taken; progress is reported if and only if a byte was consumed or delivered; while finishing the announced input stays equal to the input left |
| Compressor.Compressor.AddCharToBlock | project/retrowrite/targets/bzip2-1.0.8/bzlib.c:260-285 | behind every block and pending run: one byte more is stood for, and block and pending run stay the coding of what they stand for, cut nowhere but at 255 |
| Compressor.Compressor.CopyInputUntilStop | project/retrowrite/targets/bzip2-1.0.8/bzlib.c:288-329 | input moves from the stream to what the block and its pending run stand for and nothing is lost, until the block is full or the input is used up; the block stays the coding of its runs and is not full without the last of them |
| Compressor.Compressor.InputStep | project/retrowrite/targets/bzip2-1.0.8/bzlib.c:383-399 | a block is handed over exactly when it is full, or at a flush or finish with no input left; then the pending run goes with it, else it stays for the next block |
| Compressor.Compressor.AddPairToBlock | project/retrowrite/targets/bzip2-1.0.8/bzlib.c:215-247 | the block with the pair expands to the block with the pending run, stays inside its buffer, and its check and map of used bytes stay those of the expansion |
| Compressor.Compressor.CompressBlock | project/retrowrite/targets/bzip2-1.0.8/compress.c:602-668 | writes one more block; what the blocks written cover grows by exactly the expansion of the current one, the combined check by its check, and the log by its runs, with the last run of a full block before it running on |
| Compressor.Compressor.constructor | project/retrowrite/targets/bzip2-1.0.8/bzlib.c:148-211 | for every block size 1 to 9 and work factor 0 to 250 the state invariant that all calls keep holds, with nothing consumed or delivered; a work factor of 0 is 30 |
| BackEnd.CompressBits | project/retrowrite/targets/bzip2-1.0.8/compress.c:602-668 | the bits written so far are those of the stream format for one more block, whose map marks exactly the bytes that occur and whose tables are those chosen for its symbols; the last block adds the trailer and zero bits up to a whole byte |
| BackEnd.BlockCheckSent | project/retrowrite/targets/bzip2-1.0.8/compress.c:637-637 | the number sent with a block has the bits of the remainder of the bytes it stands for, complemented as the standard check is |
| BackEnd.CombinedBit | project/retrowrite/targets/bzip2-1.0.8/compress.c:607-608 | bit j of the combined check of any number n of blocks is the exclusive or, over the blocks, of bit (j - (n - 1 - i)) mod 32 of the check of block i |
| BackEnd.BlockSort | project/retrowrite/targets/bzip2-1.0.8/blocksort.c:1031-1089 | for every block and work factor, whether the main sort finishes, runs out of budget or is not tried, ptr is a weakly sorted permutation of the rotations and origPtr is the place of rotation 0 (assertion 1003) |
| SortChoice.LastColumnSame | project/retrowrite/targets/bzip2-1.0.8/blocksort.c:1056-1081 | all weakly sorted rotation lists of a block have the same last column, so that it does not matter which sort ran |
| SortChoice.OriginUnique | project/retrowrite/targets/bzip2-1.0.8/blocksort.c:1083-1088 | the origin pointer is the same for every such list if and only if no other rotation equals the block |
| SortChoice.SortDoesNotMatter | project/retrowrite/targets/bzip2-1.0.8/compress.c:622-668 | for two such lists all symbols and tables are the same, and all bits of the block are if and only if the origin pointers are |
| FallbackSort.FallbackSort | project/retrowrite/targets/bzip2-1.0.8/blocksort.c:211-329 | for every block up to 900000 bytes fmap becomes a weakly sorted permutation of its rotations and the block's bytes are rebuilt unchanged |
| FallbackRefine.RefineBuckets | project/retrowrite/targets/bzip2-1.0.8/blocksort.c:268-308 | one pass over the buckets of depth h leaves fmap in order of depth 2h with header bits exactly at the class boundaries; if nothing was unsorted nothing has changed and every header bit is set |
| HeaderBits.SkipBits | project/retrowrite/targets/bzip2-1.0.8/blocksort.c:273-294 | the scan by words stops at the first header bit that differs, as a scan bit by bit would |
| FallbackSort.Reconstruct | project/retrowrite/targets/bzip2-1.0.8/blocksort.c:315-325 | the saved counts and the sorted pointers give back every byte of the block (assertion 1005 holds) |
| QuickSort.FallbackQSort3 | project/retrowrite/targets/bzip2-1.0.8/blocksort.c:93-180 | for every range up to 900000 the range becomes a rearrangement of itself sorted by class, everything outside is untouched, and the stack of 100 never overflows (assertion 1004) |
| QuickSort.FallbackSimpleSort | project/retrowrite/targets/bzip2-1.0.8/blocksort.c:32-59 | the range is rearranged into the order of the classes by the stride four pass and the stride one pass |
| QuickSort.SettledSplit | project/retrowrite/targets/bzip2-1.0.8/blocksort.c:124-178 | replacing a part on the stack by the two outer zones of its three-way partition, in either order, leaves only pairs inside one part of the stack unsettled |
| MainCompare.MainGtU | project/retrowrite/targets/bzip2-1.0.8/blocksort.c:345-469 | for any quadrants that refine the order, the answer true means that the first rotation is not smaller, false that it is not greater; every read is below nblock + 34, and at most nblock of the budget is used |
| MainSimple.MainSimpleSort | project/retrowrite/targets/bzip2-1.0.8/blocksort.c:484-573 | the shell sort rearranges the range only, and sorts it by rotation unless the budget runs out; it uses at most MainSimple.SimpleWork of it |
| MainQSort.MainQSort3 | project/retrowrite/targets/bzip2-1.0.8/blocksort.c:620-739 | the range becomes a rearrangement of itself, sorted by rotation unless the budget runs out; the stack stays within 35 of its 100 places (assertion 1001) and depths reach the comparison only within its reading limit; it uses at most MainQSort.QuickWork of the budget |
| MainSort.CountWords | project/retrowrite/targets/bzip2-1.0.8/blocksort.c:769-798 | after the backward pass ftab holds how often each two-byte word occurs round the block |
| MainSort.PlaceWords | project/retrowrite/targets/bzip2-1.0.8/blocksort.c:802-830 | every place of the block stands in the bucket of its word and ftab holds where each bucket starts |
| MainSort.RunningOrder | project/retrowrite/targets/bzip2-1.0.8/blocksort.c:832-860 | the shell sort lists the big buckets each once, ascending by size |
| MainSort.SortRow | project/retrowrite/targets/bzip2-1.0.8/blocksort.c:878-907 | step 1: all buckets [ss, j], j other than ss, are sorted by rotation unless the budget runs out, and all other marked buckets stay so |
| MainSort.ScanBucket | project/retrowrite/targets/bzip2-1.0.8/blocksort.c:911-946 | step 2: the two scans put every bucket [t, ss], also [ss, ss] itself, in order of the rotations, from the sorted [ss, j] alone |
| MainScan.ScansDone | project/retrowrite/targets/bzip2-1.0.8/blocksort.c:911-944 | when both scans are through, the bucket [ss, ss] is filled from both ends exactly, or the block is one byte repeated: the two cases of assertion 1007 |
| MainSort.UpdateQuadrants | project/retrowrite/targets/bzip2-1.0.8/blocksort.c:985-1004 | step 3: the entry at place j of a finished big bucket, overshoot included, gets j shifted by the least number that leaves its size at most 65534, and all other quadrants stay; all are of 16 bits (assertion 1002) and refine the order of the rotations, as MainGtU needs |
| MainSort.MainSort | project/retrowrite/targets/bzip2-1.0.8/blocksort.c:751-1011 | unless the budget runs out ptr is a weakly sorted permutation of the rotations; the block is kept; and a budget of MainSort.SortWork never runs out |
| RotationRank.RankOrder | project/retrowrite/targets/bzip2-1.0.8/blocksort.c:345-469 | the order of the rotations is that of a number for each, so that comparisons on it are total and transitive also for periodic blocks |
| InverseBwt.InverseBwtRecovers | project/retrowrite/targets/bzip2-1.0.8/decompress.c:565-580 | for every weakly sorted rotation list, periodic blocks included, following the links of the last column from origPtr spells the block |
| InverseBwt.LinkIsNext | project/retrowrite/targets/bzip2-1.0.8/decompress.c:565-580 | one link goes one position on round the block, up to equality of rotations |
| InverseBwt.LinksInverse | project/retrowrite/targets/bzip2-1.0.8/decompress.c:565-580 | every place of the first column is the one its link's byte is counted to |
| BwtDecode.FindOrigPtr | project/retrowrite/targets/bzip2-1.0.8/blocksort.c:1083-1088 | in every permutation the search finds the place of rotation 0 |
| BwtDecode.BuildCftab | project/retrowrite/targets/bzip2-1.0.8/decompress.c:500-522 | accepted if and only if every count is in range and they do not sum to more than the block; then cftab holds their running totals |
| BwtDecode.CountsAccepted | project/retrowrite/targets/bzip2-1.0.8/decompress.c:500-522 | the counts the decoder keeps of the bytes it stored always pass these tests, and their totals are the first column's starts |
| BwtDecode.BuildLinks | project/retrowrite/targets/bzip2-1.0.8/decompress.c:565-570 | the upper 24 bits of tt become the links of the stored bytes and no byte is disturbed |
| BwtDecode.FastDelivers | project/retrowrite/targets/bzip2-1.0.8/decompress.c:572-580 | any number of BZ_GET_FAST steps on the table give what the links spell, without leaving it |
| SmallDecode.SetLL | project/retrowrite/targets/bzip2-1.0.8/bzlib_private.h:458-473 | storing a pointer below 2^20 in 16 and 4 bits changes that pointer and no other, and GET_LL gets it back |
| SmallDecode.BuildT | project/retrowrite/targets/bzip2-1.0.8/decompress.c:531-540 | the pointers become the places of the bytes in the first column though each overwrites the byte it is computed from |
| SmallDecode.ReversePointers | project/retrowrite/targets/bzip2-1.0.8/decompress.c:542-552 | the reversal in place ends, and turns round exactly the cycle of origPtr |
| SmallDecode.IndexIntoF | project/retrowrite/targets/bzip2-1.0.8/bzlib.c:687-698 | for every place the binary search finds the byte whose run in the first column holds it |
| SmallDecode.SmallDelivers | project/retrowrite/targets/bzip2-1.0.8/bzlib_private.h:475-479 | any number of BZ_GET_SMALL steps on the reversed pointers give what the links of the fast layout spell |
| Block.FinishSmallBlock | project/retrowrite/targets/bzip2-1.0.8/decompress.c:497-560 | for every decoded block the small tables deliver a reading of its last column from origPtr, and the block is refused exactly if origPtr is out of range |
| Block.FinishBlock | project/retrowrite/targets/bzip2-1.0.8/decompress.c:497-580 | for every decoded block the fast table delivers a reading of its last column from origPtr, and the block is refused exactly if origPtr is out of range |
| Block.ReadsSame | project/retrowrite/targets/bzip2-1.0.8/decompress.c:530-580 | there is one such reading: both layouts hand out the same bytes for every block the decoder accepts |
| Block.ReadsBlock | project/retrowrite/targets/bzip2-1.0.8/decompress.c:572-580 | the reading of a sent block is the block |
| Block.SymbolsDecode | project/retrowrite/targets/bzip2-1.0.8/decompress.c:355-490 | decoding the symbols of a sent block gives its last column and ends at the end of block symbol |
| MoveToFront.Windows.MoveToFront | project/retrowrite/targets/bzip2-1.0.8/decompress.c:429-480 | the sixteen windows act as one list of 256: position nn is returned and moved to the front, for both code paths and through the rebuild when the lowest window reaches 0 |
| MtfCoding.DecodeEncode | project/retrowrite/targets/bzip2-1.0.8/compress.c:120-231 | from every list and with any run pending, decoding the symbols of any sequence gives the run and that sequence mapped back to bytes, with whatever follows unread; no length guard trips |
| MtfCoding.DigitsValue | project/retrowrite/targets/bzip2-1.0.8/compress.c:174-190 | the RUNA and RUNB digits written for a run have the value of its length in the decoder's es and N loop |
| MtfCoding.ValueDigits | project/retrowrite/targets/bzip2-1.0.8/decompress.c:385-402 | every digit string is the one written for its value: runs are coded in exactly one way |
| MtfEncoder.GenerateMtfValues | project/retrowrite/targets/bzip2-1.0.8/compress.c:120-231 | with mtfv in the halves of ptr's own words, for every block the symbols written and their frequencies are those of the list code of the last column: no pointer is overwritten before it is read |
| MtfDecoder.DecodeMtfValues | project/retrowrite/targets/bzip2-1.0.8/decompress.c:355-490 | on any bits: the loop that reads a symbol when it needs one stores the block that the list code gives for the symbols there are, with its byte counts, or reports the first error in the order of the source, be it in the bits, the selectors or the symbols |
| ByteMaps.MapsInverse | project/retrowrite/targets/bzip2-1.0.8/decompress.c:27-36 | seqToUnseq undoes unseqToSeq on every sequence of used bytes |
| ByteMaps.NumbersInverse | project/retrowrite/targets/bzip2-1.0.8/compress.c:106-116 | and unseqToSeq undoes seqToUnseq on every sequence of numbers of used bytes |
| ByteMaps.MakeMapsE | project/retrowrite/targets/bzip2-1.0.8/compress.c:106-116 | each used byte gets its rank among the used ones |
| ByteMaps.MakeMapsD | project/retrowrite/targets/bzip2-1.0.8/decompress.c:27-36 | the used bytes are listed in order, all of them |
| BitStream.Writer.BsW | project/retrowrite/targets/bzip2-1.0.8/compress.c:58-78 | for n up to 24 exactly the n bits of a value below 2^n are appended to everything written; all whole bytes there were before go out first, so that n and fewer than eight bits stay |
| BitStream.Writer.BsFinishWrite | project/retrowrite/targets/bzip2-1.0.8/compress.c:46-54 | the bytes are everything written and fewer than eight zero bits |
| BitStream.MergeAppends | project/retrowrite/targets/bzip2-1.0.8/compress.c:73-78 | for a value of any size the low n bits are appended if and only if its higher bits hit no live bit that is 0 |
| BitStream.LargeSpoils | project/retrowrite/targets/bzip2-1.0.8/compress.c:73-78 | writing 2 in one bit behind a 0 changes the 0 |
| BitStream.Reader.GetBits | project/retrowrite/targets/bzip2-1.0.8/decompress.c:43-65 | for any chopping of the input over calls, empty inputs included, the call returning from inside and the next one going on at the same place: bits given and bits ahead are conserved, the next n bits are given if and only if the calls bring them, and else nothing is lost |
| Huffman.AssignCodes | project/retrowrite/targets/bzip2-1.0.8/huffman.c:152-166 | every symbol gets its canonical code: the number of codes before it, scaled to its length |
| Huffman.CreateDecodeTables | project/retrowrite/targets/bzip2-1.0.8/huffman.c:170-203 | limit, base and perm are those of the canonical code |
| Huffman.ReadInvertsCode | project/retrowrite/targets/bzip2-1.0.8/decompress.c:74-102 | under Kraft's inequality the code of every symbol, before any other bits, is read as that symbol, and just its bits are taken |
| Huffman.ReadInRange | project/retrowrite/targets/bzip2-1.0.8/decompress.c:74-102 | for all lengths 1 to 20, complete or not, and any bits, a symbol that is read is one of the alphabet |
| Huffman.CodeFits | project/retrowrite/targets/bzip2-1.0.8/huffman.c:152-166 | under Kraft's inequality no code is wider than its length, so that BsW takes it |
| Tables.MapBack | project/retrowrite/targets/bzip2-1.0.8/decompress.c:266-284 | the two-level map of used bytes is read back, whatever follows |
| Tables.UndoBack | project/retrowrite/targets/bzip2-1.0.8/decompress.c:308-320 | undoing the move to front of the selectors gives the selectors |
| Tables.SelectorsBack | project/retrowrite/targets/bzip2-1.0.8/decompress.c:286-306 | the unary selectors are read back, any number up to the limit |
| Tables.DeltaBack | project/retrowrite/targets/bzip2-1.0.8/decompress.c:324-335 | a length is read back from its deltas, which never leave 1 to 20 |
| Tables.TablesBack | project/retrowrite/targets/bzip2-1.0.8/decompress.c:322-335 | all tables of lengths are read back |
| Tables.DataBack | project/retrowrite/targets/bzip2-1.0.8/decompress.c:355-490 | symbol k is read with the table chosen for group k / 50, and the selectors do not run out before the end of block symbol |
| Tables.DataSplits | project/retrowrite/targets/bzip2-1.0.8/decompress.c:74-102 | reading all symbols at once and reading them one by one agree, also on where and why reading stops |
| Sending.SendMtfValues | project/retrowrite/targets/bzip2-1.0.8/compress.c:455-594 | for all complete or incomplete tables of at most 17 bits and all selectors the bits appended are those of map, selectors, lengths and data in the format the Tables lemmas read back; assertions 3004 to 3007 hold |
| TableChoice.ChooseTables | project/retrowrite/targets/bzip2-1.0.8/compress.c:262-456 | for every symbol string: two to six tables by its length; first tables by equal shares of the symbols; and four rounds, in each of which every group gets the first of its cheapest tables and every table becomes a best code of 1 to 17 bits for the symbols of its groups; the last round is what is sent |
| TableChoice.InitialTables | project/retrowrite/targets/bzip2-1.0.8/compress.c:281-317 | each part takes the fewest symbols that make its share of the rest, every other inner one gives one back; every symbol that occurs is favoured by exactly one initial table, and the parts follow one another through the alphabet |
| TableChoice.ChooseSelectors | project/retrowrite/targets/bzip2-1.0.8/compress.c:324-427 | one round: every group gets the first of its cheapest tables, and the frequencies counted are those of the symbols each table was given |
| TableChoice.MakeTables | project/retrowrite/targets/bzip2-1.0.8/compress.c:449-453 | every table is a best code for the frequencies of the symbols whose groups were given to it, zeroes counted as one and scaled as long as a best code has a length over 17 |
| TableChoice.PackedCost | project/retrowrite/targets/bzip2-1.0.8/compress.c:333-389 | the two costs added in one word of 32 bits are the two costs; neither half runs over |
| CodeLengths.MakeCodeLengths | project/retrowrite/targets/bzip2-1.0.8/huffman.c:63-148 | for all frequencies, zero ones and sums up to 900001, and every limit from 12 on, the scaling loop ends with lengths from 1 to the limit that meet Kraft's inequality with equality, and no lengths that meet it take fewer bits for the frequencies of the last round; before every scaling a best code had a length over the limit; all indices and the weights in 32 bits stay in bounds (assertions 2001 and 2002) |
| Optimal.JoinedBeats | project/retrowrite/targets/bzip2-1.0.8/huffman.c:98-110 | whatever code there is for the leaves, the trees before a joining can be placed at no more cost, and after joining the two lightest they still can: the exchange by which no other joining is better |
| Optimal.EndsBest | project/retrowrite/targets/bzip2-1.0.8/huffman.c:120-128 | so the depths in the last tree are those of a best prefix code |
| CodeLengths.TooLongScales | project/retrowrite/targets/bzip2-1.0.8/huffman.c:137-146 | a code with a length over 12 has a frequency of 3 or more, so that scaling lowers the sum of the frequencies: why the loop ends |
| CodeLengths.MergeTwo | project/retrowrite/targets/bzip2-1.0.8/huffman.c:98-110 | joining the two lightest trees keeps heap, ways up, shares and depths in order |
| Forest.AddedGrown | project/retrowrite/targets/bzip2-1.0.8/huffman.c:26-33 | a tree of depth n has at least the frequency of a Fibonacci number of order n, as long as the two lightest trees are joined |
| Forest.EndsWell | project/retrowrite/targets/bzip2-1.0.8/huffman.c:120-128 | when one tree is left its leaves meet Kraft's inequality with equality, no depth reaches 30, and none 13 if all frequencies are 1 or 2 |
| Heap.PopLightest | project/retrowrite/targets/bzip2-1.0.8/huffman.c:99-100 | the node taken out is a lightest of those held, and the others stay, as a heap |
| Heap.UpHeap | project/retrowrite/targets/bzip2-1.0.8/huffman.c:33-42 | an entry too light for its place rises until there is a heap, with the sentinel to stop it |
| Heap.DownHeap | project/retrowrite/targets/bzip2-1.0.8/huffman.c:44-59 | an entry too heavy for its place sinks until there is a heap |
| Receiving.ReceiveMap | project/retrowrite/targets/bzip2-1.0.8/decompress.c:266-284 | on any bits, the map of used bytes read, or the lack of bits, is what the format's parser finds |
| Receiving.ReceiveSelectors | project/retrowrite/targets/bzip2-1.0.8/decompress.c:286-306 | on any bits, the unary selectors read, a selector refused, or the lack of bits, are what the format's parser finds |
| Receiving.ReceiveTables | project/retrowrite/targets/bzip2-1.0.8/decompress.c:322-335 | on any bits, the lengths read, a length outside 1 to 20 refused, or the lack of bits, are what the format's parser finds |
| Symbols.SymbolSource.Next | project/retrowrite/targets/bzip2-1.0.8/decompress.c:74-102 | GET_MTF_VAL on any bits: the next symbol the format's parser finds, with the table selected for the current fifty, or why there is none; what comes after it is unchanged |
| Stream.SendBlock | project/retrowrite/targets/bzip2-1.0.8/compress.c:622-668 | for every sorted block the bits appended are a block of the format that stands for it, with the tables chosen for its symbols |
| Stream.ReceiveBlock | project/retrowrite/targets/bzip2-1.0.8/decompress.c:222-584 | on any bits: refused, waiting, randomised or ready exactly as check, randomisation bit, origPtr, map, selectors, lengths and symbols say; if ready, what will be read is what the links of the received last column spell from origPtr, which must lie in it. A sent block is received in either layout, exactly its bits are taken, and the output set up delivers it |
| Block.ReceiveBody | project/retrowrite/targets/bzip2-1.0.8/decompress.c:266-348 | on any bits: map, number of tables, selectors and lengths are those the format's parser finds, or refused, or missing, as it says, and the symbols behind them are read with these |
| RunLength.ExpandPair | project/retrowrite/targets/bzip2-1.0.8/bzlib.c:215-247 | a run of 1 to 255 written as a pair expands to itself behind every block that can take it, and says which runs may follow |
| RunLength.PairsExpand | project/retrowrite/targets/bzip2-1.0.8/bzlib.c:215-247 | the coding of any runs expands to their bytes and lacks no count |
| RunLength.CutUnique | project/retrowrite/targets/bzip2-1.0.8/bzlib.c:260-285 | a string is cut into runs of at most 255, of which only those of 255 are followed by their own byte, in one way only: so what the blocks are is fixed by the input |
| UnRle.BlockOutput.Fast | project/retrowrite/targets/bzip2-1.0.8/bzlib.c:589-680 | for every block, sound or not, every state between calls and every space: corruption is reported exactly for a block that ends inside a run and a space that all of it fits into; otherwise what has been delivered is exactly as much of the run expansion as there was space for |
| UnRle.BlockOutput.Small | project/retrowrite/targets/bzip2-1.0.8/bzlib.c:759-801 | for every block, state and space: what has been delivered is exactly as much of the run expansion as there was space for, also when corruption is reported, which is exactly for a block that ends inside a run and a space with a byte to spare |
| Crc.TableCrcIsRemainder | project/retrowrite/targets/bzip2-1.0.8/bzlib_private.h:157-172 | for every message the table driven check is the remainder of the message polynomial by 0x104c11db7, most significant bit first |
| Crc.CheckIsRemainder | project/retrowrite/targets/bzip2-1.0.8/bzlib_private.h:157-172 | for every message the check, begun with all ones and complemented, has the bits of the remainder, with these ones and complements written out |
| Crc.MixedBit | project/retrowrite/targets/bzip2-1.0.8/bzlib.c:832-835 | mixing any checks one after the other gives in each bit the exclusive or of one bit of each check, the one that so many rotations bring there |
| Liveness.FreeRegistersAreFree | project/retrowrite/librw_x64/cftool/main.go:195-311 | for every machine that keeps to the read and write sets: a run in which every register reported free is overwritten before every instruction takes the same path as the undisturbed run, and agrees with it on every register that is not free |
| Liveness.Runnable | project/retrowrite/librw_x64/cftool/main.go:195-230 | there are machines that keep to the sets of some code if and only if every instruction has a successor other than a call, as the analysis of the rewriter provides (project/retrowrite/librw_x64/rw.py:534-605) |
| Liveness.AnalyzeFunction | project/retrowrite/librw_x64/cftool/main.go:241-311 | for every function: it panics exactly if a name is bad or, after fewer than 8192 updates, the first set that could be wrong has a successor out of range; the sets reported are complements of a post-fixpoint although || cuts every pass short and the iterations are capped: those after as many updates, each of the first set that is wrong, as there are to make or the cap allows; under 456 instructions they are a fixpoint |
| Liveness.LargestFixpoint | project/retrowrite/librw_x64/cftool/main.go:241-311 | whenever the iteration is not cut off, the sets are the largest fixpoint; and what any fixpoint needs is never taken out |
| Liveness.NewUses | project/retrowrite/librw_x64/cftool/main.go:195-230 | a register is in the new set exactly if the instruction reads it or some successor needs it and the instruction does not set it |
| Liveness.UpdateKeeps | project/retrowrite/librw_x64/cftool/main.go:232-235 | every single update shrinks its set and leaves all sets a post-fixpoint |
| Liveness.PartNotKilled | project/retrowrite/librw_x64/cftool/main.go:256-290 | a register of which only 8 or 16 bits are written counts as read |
| Asan.Transparent | project/retrowrite/rwtools_x64/asan/instrument.py:138-239 | for every set of free registers, leaf or not, access of 1, 2, 4 or 8 bytes and state: the address is evaluated in the original registers and its shadow byte is the one probed; without a report every register that is not free, live flags, rsp and memory but for words below the stack are as before |
| Asan.TransparentWhereFree | project/retrowrite/rwtools_x64/asan/instrument.py:138-239 | with the registers that the analysis of Liveness found free, and an address that reads what the instruction reads: address and probe are right and, without a report, everything not free is as before |
| Asan.FaithfulExists | project/retrowrite/rwtools_x64/asan/snippets.py:60-73 | whatever address expressions and arithmetic do, there is a layout of the flags for which popf undoes pushf |
| Asan.AssumptionsMet | project/retrowrite/rwtools_x64/asan/instrument.py:138-239 | for every set of free registers there are an environment and a state that meet all that Transparent and TransparentWhereFree ask for |
| Asan.PlanSafe | project/retrowrite/rwtools_x64/asan/instrument.py:145-181 | the choice of registers never uses one that is live and not saved, nor one register twice, for all sets of free registers |
| Asan.PlanByPreference | project/retrowrite/rwtools_x64/asan/instrument.py:138-181 | with two or more registers of the list free nothing is saved and the first two are taken, r2 first; with one, r1 is saved and is rdi, or rsi if that one is rdi; with none both are; the flags are left alone exactly if they are free, go through pushf exactly if no register is, and rax is kept then exactly if it is not; the stack is adjusted exactly in a leaf that saves something |
| Asan.GetMemInstrumentation | project/retrowrite/rwtools_x64/asan/instrument.py:138-239 | the appended and prepended lists are the sequence that Transparent is about, for the plan of PlanByPreference |
| Asan.CheckReports | project/retrowrite/rwtools_x64/asan/instrument.py:101-133 | for each size, the shadow byte of the address is the one probed, and the check reports if and only if that byte is not zero and, for fewer than eight bytes, the offset of the last byte accessed is at least the byte as a signed number |
| Asan.FlagsPopped | project/retrowrite/rwtools_x64/asan/snippets.py:64-80 | pop, add 0x7f and sahf restore all six status flags, the overflow flag included |
| Shuffle.DoInstrument | project/retrowrite/rwtools_x64/jumparound/instrument.py:19-48 | for every function and every random choice the wrappers are permuted as the choices say without the first two and last two moving, and each gets exactly its call and its landing behind what earlier passes added |
| Shuffle.EveryShuffle | project/retrowrite/rwtools_x64/jumparound/instrument.py:43-48 | every order with the first two and last two in place comes from some choices |
| Shuffle.Render | project/retrowrite/librw_x64/container.py:201-257 | for any pieces of any passes: in the order of the cache, each instruction's label, its pieces before, itself, its pieces behind |
| Shuffle.TextIsCode | project/retrowrite/rwtools_x64/jumparound/instrument.py:19-48 | with the pieces of this pass alone these lines are the code of the shuffle that the theorems below are about |
| Shuffle.InstructionWrapper.InstrumentBefore | project/retrowrite/librw_x64/container.py:318-322 | an order that is given and not zero inserts there, others append |
| Shuffle.InstructionWrapper.InstrumentAfter | project/retrowrite/librw_x64/container.py:324-328 | an order that is given and not zero inserts there behind the instruction, others append |
| Shuffle.ShuffleSimulates | project/retrowrite/rwtools_x64/jumparound/instrument.py:19-48 | for every function, shuffle, start and number of steps, as long as no instruction uses memory where a return address was left: the shuffled code reaches the same instruction or exit with the same registers, flags, rsp and memory but for those cells |
| Shuffle.ExitsAgree | project/retrowrite/rwtools_x64/jumparound/instrument.py:19-48 | conversely, if the shuffled code leaves the function the original does, by the same exit and in the same state but for those cells |
| Shuffle.StaleDiffers | project/retrowrite/rwtools_x64/jumparound/instrument.py:27-42 | the cells left out are needed: for each there are return addresses for which its content differs |
| Shuffle.ShallowFunctionsUnchanged | project/retrowrite/rwtools_x64/jumparound/instrument.py:27-42 | a function that stays within 0x2000 - 128 bytes of stack and uses nothing below its red zone sees no difference at all |
| Shuffle.PushSpoils | project/retrowrite/rwtools_x64/jumparound/instrument.py:27-42 | after one push the memory at rsp - 0x2000 differs |
| Symbolic.SimplifiedValue | project/retrowrite/librw_arm64/emulation.py:33-66 | folding keeps the value of every expression on every state |
| Symbolic.SimplifiedReduced | project/retrowrite/librw_arm64/emulation.py:33-66 | folding leaves no pair of numbers |
| Symbolic.SimplifiedStops | project/retrowrite/librw_arm64/emulation.py:33-66 | folding fails exactly if somewhere in the expression two parts that are numbers alone are divided by 0, shifted by less than 0 or joined by an operator it does not know |
| Symbolic.DividesDown | project/retrowrite/librw_arm64/emulation.py:53-54 | numbers are divided rounding down, also negative ones |
| Symbolic.SubstValue | project/retrowrite/librw_arm64/emulation.py:15-30 | replacing a register by an expression is assigning the expression's value to it |
| Expressions.Expr.Replace | project/retrowrite/librw_arm64/emulation.py:15-30 | the overwriting of fields in place, with deep copies, is the substitution on trees |
| Expressions.Expr.Simplify | project/retrowrite/librw_arm64/emulation.py:33-66 | the folding in place is the folding of trees and stops with an error exactly where that does |
| BackwardEval.Path.Emulate | project/retrowrite/librw_arm64/emulation.py:93-235 | one step back replaces the written register in the expression, and reg_pool stays exactly the set of registers in it, so that skipping an instruction that writes none of them is right |
| BackwardEval.BackwardIsIntegerRun | project/retrowrite/librw_arm64/emulation.py:93-235 | for every chain, the expression found backwards has, on the start state, the value that running the chain forwards on unbounded integers gives |
| BackwardEval.ReverseNexts | project/retrowrite/librw_arm64/rw.py:561-567 | prevs lists for each place the instructions that lead to it, as often and in the order that nexts gives them |
| BackwardEval.PathFollowsEdges | project/retrowrite/librw_arm64/rw.py:569-600 | with the lists of reverse_nexts the instructions looked at are joined by edges of the function |
| BackwardEval.ResolveRegisterValue | project/retrowrite/librw_arm64/rw.py:569-607 | the walk goes back from the branch along the first listed predecessor until, and not before, it is at the start of the function, at a place already passed, out of steps, without predecessors or without registers; the answer is the folded backward expression of just this path, and there is one exactly if no instruction outside the model writes a wanted register and folding does not fail |
| EvalSoundness.RightIffSound | project/retrowrite/librw_arm64/emulation.py:126-235 | for every straight-line chain and start state: all expressions agree with the 64-bit machine all along the chain if and only if every instruction meets its condition |
| EvalSoundness.StepSound | project/retrowrite/librw_arm64/emulation.py:126-235 | the condition of each instruction, its second operand shifted in any way and its immediates read as the code reads them, is exact: expression and machine agree about its result if and only if it holds |
| EvalSoundness.ResolvedIsRight | project/retrowrite/librw_arm64/rw.py:569-607 | under the conditions the answer of resolve_register_value, modulo 2^64, is the register at the branch, and is folded |
| EvalSoundness.ModularIsSound | project/retrowrite/librw_arm64/emulation.py:140-235 | the condition always holds for add, sub, mul, madd, adr, ubfiz and shifts to the left by a constant, for movz and movn without a shift, and for mov and and without a shift whose immediate has no more than 32 bits |
| EvalSoundness.InRangeIsSound | project/retrowrite/librw_arm64/emulation.py:165-172 | it holds for a shift of a value in the range of a word: unsigned for lsr, signed for asr |
| EvalSoundness.WordShifts | project/retrowrite/librw_arm64/emulation.py:229-235 | on a word lsr is always right, asr exactly if the word is not negative |
| EvalSoundness.LongLsr | project/retrowrite/librw_arm64/emulation.py:229-235 | lsr of a word by 64 or more is right exactly if the word is below 2 to the amount modulo 64 |
| EvalSoundness.LongAsr | project/retrowrite/librw_arm64/emulation.py:165-172 | asr of a signed word by 64 or more is right exactly if it is from minus 2 to that amount to below it |
| EvalSoundness.AddsSubtracts | project/retrowrite/librw_arm64/emulation.py:140-149 | adds is right exactly for an operand that is 0 or 2^63 |
| EvalSoundness.BorrowFails | project/retrowrite/librw_arm64/emulation.py:229-235 | sub x1,x2,#1 then lsr x0,x1,#63 with x2 = 0 gives -1, the machine 1 |
| EvalSoundness.AndFails | project/retrowrite/librw_arm64/emulation.py:156-163 | and x0,x1,x2,lsl #3 with x1 = 8 and x2 = 1 gives 0, the machine 8 |
| EvalSoundness.MovFails | project/retrowrite/librw_arm64/emulation.py:186-190 | mov x0,#-1 gives 2^32 - 1, the machine 2^64 - 1 |
| EvalSoundness.AndWideFails | project/retrowrite/librw_arm64/emulation.py:156-163 | and x0,x1,#-16 with x1 = 2^32 gives 0, the machine 2^32 |
| EvalSoundness.LongFails | project/retrowrite/librw_arm64/emulation.py:229-235 | lsr of 2^63 by a register of 64 gives 0, the machine 2^63 |

## Findings

Statements one would expect of the code that it does not meet, each with an input and the exact condition.

- **Shuffled functions and memory above rsp - 0x2000.** The calls of the shuffled code leave return addresses in memory.
  After one push such an address stands at rsp - 0x2000 (`Shuffle.PushSpoils`). The exact set of cells is
  `Shuffle.Dirty`: everything else is the same (`Shuffle.ShuffleSimulates`), each of its cells can differ
  (`Shuffle.StaleDiffers`), and a shallow function sees no difference (`Shuffle.ShallowFunctionsUnchanged`).
- **bsW and values wider than n bits.** `bsW` does not mask its value, so it appends the low n bits only if the higher
  bits hit no live bit that is 0 (`BitStream.MergeAppends`, an equivalence; `BitStream.LargeSpoils`, an input). All
  calls of the compressor pass values below 2^n, as the contract of `BitStream.Writer.BsW` asks (`Huffman.CodeFits` for
  the codes).
- **Backward evaluation and words.** The evaluator calculates with unbounded integers. With x2 = 0 it evaluates
  `sub x1,x2,#1; lsr x0,x1,#63` to -1, the machine to 1 (`EvalSoundness.BorrowFails`). For every chain it is right if
  and only if each instruction meets a condition on the values it meets (`EvalSoundness.RightIffSound`). Of a value
  shifted right by k below 64 its overflows must be a multiple of 2^k, which is so in the range of a word
  (`EvalSoundness.InRangeIsSound`, `EvalSoundness.WordShifts`). Amounts of 64 and more the machine takes modulo 64 and
  the evaluator does not: with x1 = 2^63 and x2 = 64, `lsr x0,x1,x2` gives 0 (`EvalSoundness.LongFails`; exactly when it
  is right: `EvalSoundness.LongLsr`, `EvalSoundness.LongAsr`).
- **Dropped shifts.** Only `lsl` on the second operand of an addition is looked at. `and x0,x1,x2,lsl #3` with x1 = 8
  and x2 = 1 is evaluated to 0 and is 8 (`EvalSoundness.AndFails`); `and` is right if and only if its operand and the
  shifted one agree on the set bits of the other. `movz` and `movn` are right if and only if the number or its place is
  0, and additions with `lsr` or `asr` only for operands the shift leaves as they are (`EvalSoundness.Sound`, exact by
  `EvalSoundness.StepSound`).
- **Wide immediates.** Additions, `and`, `asr` and `mov` read an immediate through the register field of the operand,
  which has its low 32 bits. `mov x0,#-1` is evaluated to 2^32 - 1 (`EvalSoundness.MovFails`), and `and x0,x1,#-16` with
  x1 = 2^32 to 0 where the machine has 2^32 (`EvalSoundness.AndWideFails`). `mov` is right if and only if the word has
  no more than 32 bits, `and` if and only if what is read agrees with the operand on the set bits of the other.
- **adds.** The operator is `+` for `add` alone, so `adds` is evaluated as a subtraction. That is right exactly if the
  operand is 0 or 2^63 (`EvalSoundness.AddsSubtracts`).
- **The sort and the stream.** A comment at blocksort.c:1056-1062 says that the stream does not depend on which sort
  ran. For any two weakly sorted lists that is so if and only if the origin pointers agree
  (`SortChoice.SortDoesNotMatter`), and being sorted fixes the origin pointer if and only if the block does not repeat
  (`SortChoice.OriginUnique`). Either stream decodes to the block.

## Left out

- Compressor.Compressor.BzCompress: as in the source, a flush leaves the last bits of the block, up to 24, in the bit buffer (BitStream.Writer.BsW says how many stay after each call), so they are not among the bytes delivered.
- Compressor: verbosity, the counters total_in and total_out, allocation, and the capacity of the output area in arr2 (zbits is a sequence). arr1 and arr2 are shared between ptr and mtfv as in the source, but eclass8 and eclass, and block and quadrant, are separate arrays. The six tables of lengths are a sequence of sequences.
- Decompress: randomised blocks, which no current compressor writes, end as Unmodelled.
- Decompress.Decompressor.BzDecompress: a call that returns for want of input and the one that goes on at the same place are one method call with a list of inputs (BitStream.Reader); that the save area of BZ2_decompress restores all its local variables is taken for granted, and the next call's output space is what was left of the last one's. After BZ_DATA_ERROR no further call is allowed.
- MainCompare.MainGtU: the unrolled steps are a loop, as are other unrolled loops.
- BackEnd.BlockSort: which of its origin pointers each sort finds for a block that repeats.
- BackEnd.SortRotations: that blocks below 10000 bytes go to the fallback sort, and how the budget follows from the work factor, is as in the source, but the contract does not say which sort ran: what it promises holds for both.
- Liveness: the table of register names; a name is given as the register it is part of and its size. The Python twin of the analysis.
- Asan: the extra checks for rep stos and rep movs, 16-byte accesses, redzones and poisoning; rsp is not wrapped at 2^64, the address expression is a function of the registers, and where the flags stand in the word that pushf writes is left open.
- Asan.Transparent: if the shadow byte is itself one of the words that the sequence saves below the stack, what it finds there is not stated.
- Shuffle: return addresses of calls that the program itself makes, which depend on where the code stands, and cfi directives. The simulation is for code with the pieces of this pass alone; pieces of an earlier pass before an instruction stand in front of the landing and are not run when it is reached by a chained call.
- BackwardEval: loads, stores and stack slots, eor, sdiv, smull and smaddl, sxtw, conditional selects, extended operands, 32-bit names and the zero register. Instructions outside the model must not write a register in the pool. That the register field of an immediate gives its low 32 bits as an unsigned number is how the disassembler lays operands out, which is not part of this model.
- The stdio layer of bzlib.c, bzip2recover, ELF loading, disassembly, DWARF and the ARM passes: input and output, or foreign libraries.
