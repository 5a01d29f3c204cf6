# Verification of SHP's data path: zlib 1.2.8 and the event relay

SHP (smart home platform) ships a copy of zlib 1.2.8 under `src/external/zlib` and relays sensor events from clients
through a proxy to a head. This project models that code in Dafny and proves what it is for:

* **What is compressed comes back.** Any input, handed to any of the four compressing loops in any pieces, gives bytes
  that inflate, fed in any pieces and with buffers of any size, turns into the same input again (`RoundTrip.RoundTrip`).
* **The compressor chooses what zlib chooses.** For every cutting into calls the tokens are those that follow from the
  input by the rules of the loop: the search sees exactly the latest strings with the same key and finds the one best
  of them, greedy and lazy evaluation, the runs of `deflate_rle`, and the form of every block (`RoundTrip.Compress`,
  `Choices.FollowsOne`). Cutting the input differently changes nothing but at one edge of the window
  (`Cutting.CutFree`).
* **Each half meets the format on its own.** The compressor's blocks are those of RFC 1951 with exactly the announced
  number of bits, and its Huffman codes are optimal when none overflows. Inflate computes exactly the meaning of every
  stream, valid or not, however input and output are cut (`Resume.Drive`).
* **The space set aside for decoding tables suffices** (`TableBound.LensSuffice`, `TableBound.DistsSuffice`): that 852
  and 592 entries are enough, which `inftrees.h` reports from an exhaustive search, follows from a short count.
* **The fast forms equal the simple ones**: two-level decoding tables, `inflate_fast`, hash chains with an unchecked
  third byte, table-driven and word-wise CRC-32, deferred and division-free Adler-32, and the combination of checksums.
* **The relay keeps its order.** In every interleaving and with every socket failure, what the proxy takes over is a
  prefix of what the client queued, and what the head shows is a subsequence of that, nothing twice
  (`Relay.RelaySafe`).

## How it is built

Code that changes state is modelled by classes and methods with loops: the bit buffer, the heap, the counters, the
window, the hash tables, the inflate state machine, the message buffer and the socket loops. Each is proved against
small mathematical definitions:

* `Bits`, `Canonical`, `Rfc1951`, `Decoder`: bit fields, canonical codes (section 3.2.2 of RFC 1951), tokens and what
  they expand to, and a decoder that takes one step at a time and is a direct reading of section 3.2 of RFC 1951.
* Compressor: `HuffmanCost`, `HuffmanHeap`, `HuffmanTree`, `HuffmanLengths`, `HuffmanDepth`, `HuffmanCodes`,
  `HuffmanBuild` (`build_tree` and its parts), `RunLength`, `StaticTables`, `FixedTrees`, `BitWriter`, `BlockCost`,
  `RunForms`, `BlockWriter`, `BlockParts`, `Compressor` (a block), `HashKey`, `HashChains`, `History` (window and
  chains), `MatchFinder`, `RunFinder`, `Covering`, `Choices` and `RunRule` (what the loops choose, told by the input
  alone), `Cutting`, `Deflate` (the four loops).
* Decompressor: `TableSpace`, `InflateTable`, `TableBound` (the table space always suffices), `BitReader`,
  `CodeReader`, `InflateWindow`, `InflateSteps`, `Inflate`, `Resume`.
* Both: `FormatTables` (what the shared tables hold, in numbers), `BlockTrip`, `Blocks` (a stream of blocks reads back),
  `RoundTrip`.
* Checksums: `ExclusiveOr`, `CrcSpec`, `ByteSwap`, `Crc`, `CrcWords`, `CrcCombine`, `CrcResidue`,
  `Adler`.
* Relay: `Message`, `Sockets`, `Queue`, `Events` (one round of each loop), `Link` and `Relay` (all threads, interleaved).

A state of the decoder has an ordinary run (`Decoder.Run`), and `Inflater.At(c)` says that the machine stands at a
configuration that the run from `c` goes through. That is the refinement used everywhere: a mode of `inflate`, a whole
`inflate_fast` call and a sequence of calls are all some number of steps of the same decoder. On the other side
`Deflater.Tallied(n)` says that the blocks written and the tokens collected cover exactly the first `n` bytes of input,
with every match between 3 and 258 bytes long and at most `MAX_DIST` back.

Integers are unbounded; every width that matters is written out (`% 0x1_0000`, `% 0x1_0000_0000`, the wrapping
`match_start`). Bit operations on numbers are divisions and remainders by powers of two, exclusive or is defined in
`ExclusiveOr`. `assert`s of the C code that only exist in debug builds are not modelled.

Where the code and its comments differ, the code is followed:

* `deflate.c:1187` makes a point of deflate being deterministic. Where the window has slid just so far that the latest string
  with the key of the current one, at distance MAX_DIST, is at its first byte, the search sees nothing; and when the window
  slides depends on the pieces in which the input comes. (`Cutting.EdgeIs`, `Cutting.CutFree`)
* `trees.c:653` says that the forced dummy code is 0 or 1. It is 2 when only symbol 1 is used. (`HuffmanBuild.ForcedCodes`)
* `inffast.c:309` says that fewer than 8 bits are held on entry. `inflate` also enters it with 8 or more bits that contain
  no complete code. It leaves with fewer than 8. (`Inflate.Inflater.HoldOk`)
* With an empty code length code `inflate_table` returns 0 with a table of invalid entries, and inflate reads the
  marker's value 0 as code length 0 for every symbol, one bit each. The decoder does the same. (`Decoder.StepCodeLens`)

## Model

Paths are relative to the repository. Lines are those of the code a row is about.

| member | source | states |
|---|---|---|
| RoundTrip.RoundTrip | src/external/zlib/deflate.c:1628-1967 | For every input in any pieces with or without flushes, any of the four loops, any room for the output of each call up to a last one that has enough, any window at least as large on the other side, and any cutting of the compressed bytes and buffers: what inflate puts out is always a beginning of the input; it is the whole input, with mode CHECK, whenever the last call did not stop for want of room, and this is so when the last buffer is larger than the input |
| RoundTrip.Compress | src/external/zlib/deflate.c:1628-1967 | Once a finishing call had room, which one with enough always does, the bytes written over all calls are whole, are the bits of a non-empty sequence of well-formed blocks of which only the last is marked last, and the tokens of these blocks expand to the concatenated input with no distance above MAX_DIST. The tokens are those that the loop chooses for this input (`RoundTrip.Chooses`), given the ends of the calls that flushed, and every block is the one that the sizes of stored bytes, fixed codes and codes built for its tokens ask for |
| Deflate.Deflater.DeflateFast | src/external/zlib/deflate.c:1628-1722 | One call keeps the whole input (read and unread) and the cover of everything before strstart by blocks and tokens; it returns need_more only for want of input or room, block_done after everything is written, and the two finish codes only with a complete stream that expands to all input. What it has done since the stream began follows the rules of `Choices`: in every round with 262 bytes ahead, or all that a flushing call was given, the search finds just what there is to find among the strings that are inserted, the token is that match or a literal (`Choices.GreedyToken`), and the strings inserted are those the rules say |
| Deflate.Deflater.DeflateSlow | src/external/zlib/deflate.c:1730-1853 | The same with lazy evaluation: the cover ends one byte before strstart exactly while match_available is set, a match held back is a true repetition until it is emitted or given up, also across slides of the window in which match_start wraps around; it is emitted exactly if the next position has no longer one, where no search is made from max_lazy on, and matches of up to 5 bytes when filtered and of 3 bytes from farther than 4096 back do not count |
| Deflate.Deflater.DeflateRle | src/external/zlib/deflate.c:1861-1928 | The same for matches of distance one, and the tokens are a parse of the input: at each position three bytes or more like the one before give a match as long as the run, up to 258 and to the end of what was given to a flushing call, all else gives literals (`RunRule.RunTokenIs`) |
| Deflate.Deflater.DeflateHuff | src/external/zlib/deflate.c:1934-1967 | The same with literals only: the tokens are the bytes of the input |
| Deflate.Deflater.FlushBlock | src/external/zlib/deflate.c:1538-1553 | A block written from window and tokens moves block_start to strstart and keeps the cover; the last block completes the stream |
| Deflate.Deflater.EmitMatch | src/external/zlib/deflate.c:1668-1705 | A match found is tallied as a token that repeats exactly the bytes it replaces, and the position moves behind it; all strings in between are inserted if it is not longer than max_lazy and three bytes follow, else none |
| Deflate.Deflater.Search | src/external/zlib/deflate.c:1659-1666 | Starting from the head of the hash chain the search finds exactly what there is to find among the strings that the input and the inserted positions determine |
| Deflate.Deflater.SlowSearch | src/external/zlib/deflate.c:1763-1785 | The same for lazy evaluation, with the cases in which no search is made and in which a short match is not taken |
| Choices.EarlierIs | src/external/zlib/deflate.c:1270-1272 | The strings of a chain are the latest inserted ones with the key: in falling order, and none is missing down to the last of them or to the limit |
| Choices.VisitedIs | src/external/zlib/deflate.c:1159-1272 | Completeness of the chains: following head and prev visits just the latest inserted strings with the key of the current one, the first up to MAX_DIST back and the others less, none at the first byte of the window, and as many as max_chain allows, a quarter of it if the match to beat is good |
| Choices.FindsInput | src/external/zlib/deflate.c:1198-1289 | What the search finds in the window, cut to the lookahead, is what there is to find in the input, whatever the bytes behind the input are |
| Choices.GreedyToken | src/external/zlib/deflate.c:1653-1711 | A round of deflate_fast tallies a literal exactly if no string looked at has three bytes in common with the current one, else the match of a string looked at, as long as both agree |
| Choices.FollowsOne | src/external/zlib/deflate.c:1628-1853 | The rules leave no choice: what was read and where the window began at each round determine every search, every inserted string and every token |
| Cutting.CutFree | src/external/zlib/deflate.c:1187-1191 | How the input is cut into calls does not change the tokens of deflate_fast and deflate_slow if only its end is flushed, except where the window has slid just so far that a string at distance MAX_DIST is at its first byte |
| Cutting.EdgeIs | src/external/zlib/deflate.c:1659-1664 | There a string at distance MAX_DIST that is the latest with its key counts as none, and with it all others; otherwise the search sees the same strings |
| RunRule.RunTokenIs | src/external/zlib/deflate.c:1879-1915 | A match of deflate_rle is a run of equal bytes, three at least, that ends with another byte, with what was read or at 258 bytes; a literal is put out only where no three bytes equal the one before |
| RunRule.RunWhole | src/external/zlib/deflate.c:1861-1928 | If only the end of the input is flushed the tokens of deflate_rle are a function of the input |
| RoundTrip.RleDetermined | src/external/zlib/deflate.c:1861-1928 | So the tokens in the blocks of `Compress` are this function of the concatenated input, however it was cut into calls |
| RunRule.UniformToken | src/external/zlib/deflate.c:1882-1900 | One byte repeated gives matches of 258 bytes and one for the rest behind a literal |
| Covering.CoverMatch | src/external/zlib/deflate.h:330-339 | A token of length and distance extends the cover when the bytes at that distance repeat, overlapping copies included |
| History.Past.FillWindow | src/external/zlib/deflate.c:1390-1532 | Reading ahead and sliding keep all bytes, absolute positions and hash chains; strings that waited for bytes are inserted as soon as there are three; match_start slides with 32-bit wrap-around; it ends with enough lookahead or without input |
| History.Past.Slide | src/external/zlib/deflate.c:1419-1451 | Sliding by one window keeps window contents, block start and all chains at their absolute positions |
| History.Past.InsertString | src/external/zlib/deflate.c:186-189 | Inserting a string gives the previous head of its chain: zero or the last earlier position with the same key, with none between; and it keeps the running key |
| HashChains.InsertOk | src/external/zlib/deflate.c:167-190 | Insertion keeps the chains: every head is the last inserted position with its key, and every link in a slot not yet used again the last one before with the same key, or zero if there is none behind the first byte of the window |
| HashChains.SlideOk | src/external/zlib/deflate.c:1432-1449 | Subtracting the window size from all heads and links, with zero for those that fall out, keeps the chains |
| HashKey.KeyRolls | src/external/zlib/deflate.c:167-167 | After three updates the oldest byte has left the running key, so updating gives the key of the last three bytes |
| HashKey.KeyThird | src/external/zlib/deflate.c:1206-1221 | Two strings with the same key and the same first two bytes have the same third byte: why longest_match need not compare it |
| HashKey.KeyIs | src/external/zlib/deflate.c:167-167 | The key of three bytes is their exclusive or, shifted by twice, once and no times hash_shift, cut to hash_bits |
| MatchFinder.ChainKeys | src/external/zlib/deflate.c:1270-1272 | Every position visited above limit has the hash key of the current string |
| MatchFinder.LongestMatch | src/external/zlib/deflate.c:1148-1289 | The result is the one thing to find (`MatchFinder.FindsAt`): the first string of the visited part of the chain that agrees in more bytes than all before it, cut to the lookahead, where the search ends at the first with nice_match bytes or as many as there are; a length above prev_length is a true match at match_start |
| MatchFinder.FindsOne | src/external/zlib/deflate.c:1198-1289 | A search along given strings can find only one thing |
| MatchFinder.Promising | src/external/zlib/deflate.c:1206-1212 | The quick test rejects only strings that cannot beat the best one, and what passes agrees in three bytes |
| RunFinder.CountRun | src/external/zlib/deflate.c:1882-1900 | The unrolled scan finds the exact length of the run, 258 at most |
| Compressor.Coder.Tally | src/external/zlib/deflate.h:323-339 | A tallied token is appended, the symbol frequencies stay those of the tokens, and the result says whether the buffer is full |
| Compressor.Coder.FlushBlock | src/external/zlib/trees.c:907-1004 | The bits written are those of a well-formed block for exactly the stored bytes or the tokens tallied, padded when it is the last one, and the block is the one of stored, fixed and dynamic that the byte counts ask for, where the dynamic one has the trees that build_tree makes for the tokens and for the code lengths (`Compressor.Tailored`); the next block starts empty |
| Compressor.Coder.BuildTrees | src/external/zlib/trees.c:924-943 | Exact cost: opt_len is the number of bits of the dynamic header and body and static_len that of the body with fixed codes, including forced codes, overflow repair, extra bits and END_BLOCK; all three codes have the properties of `HuffmanBuild.BuildTree` for the frequencies of the tokens and of the code lengths, and no trailing zero lengths are sent |
| Compressor.Coder.BuildBlTree | src/external/zlib/trees.c:801-829 | The code for code lengths covers every length that will be sent, fits seven bits, is accepted by inflate, the last length sent is not zero, and opt_len grows by exactly the bits of the tree header |
| HuffmanBuild.BuildTree | src/external/zlib/trees.c:617-699 | The lengths form a complete code of at most max_length bits for exactly the used and forced symbols, no more frequent symbol has a longer one, codes are the reversed canonical ones, opt_len and static_len grow by the exact cost; the lengths are the depths in a tree whose every merge takes the two least nodes, of equal frequencies those of less depth, unless that tree is too deep; they are optimal among all prefix codes whenever all are below max_length, or whenever the frequencies add up to less than the Fibonacci number of max_length + 3 (2584 for 15 bits, 55 for 7), and otherwise some tree for these frequencies is too deep |
| HuffmanDepth.LightIsShallow | src/external/zlib/trees.c:666-690 | A tree that merging builds has no leaf below depth max unless its frequencies add up to the Fibonacci number of max + 3 at least |
| HuffmanBuild.TreeIsOptimal | src/external/zlib/trees.c:660-690 | The depths in the tree that heap and merging produce cost no more than any prefix code |
| HuffmanCost.GreedyIsOptimal | src/external/zlib/trees.c:666-690 | Merging the two least weights again and again costs no more than any prefix code |
| HuffmanHeap.PqDownHeap | src/external/zlib/trees.c:453-476 | Sifting down restores the heap order from lo on and permutes the heap |
| HuffmanTree.Builder.GrowTree | src/external/zlib/trees.c:657-690 | The merges form a tree over the leaves, each of the two least nodes by frequency and then by depth in 8 bits, and are recorded so that every father comes before its sons |
| HuffmanTree.Builder.ForceTwo | src/external/zlib/trees.c:644-655 | At least two leaves, and opt_len and static_len are corrected for the forced ones |
| HuffmanLengths.GenBitlen | src/external/zlib/trees.c:488-565 | Lengths within the limit with Kraft equality, counted in bl_count; opt_len and static_len are the exact costs; they are the depths in the tree if it is shallow enough, else some leaf has the limit; no leaf of higher frequency has a longer code |
| HuffmanLengths.RepairCounts | src/external/zlib/trees.c:532-545 | Starting with overflow/2 units of excess, every pass takes the longest leaf below the limit down, keeps the number of leaves and lowers the Kraft sum by one unit, until Kraft equality |
| HuffmanLengths.ShorterLeaf | src/external/zlib/trees.c:536-537 | While there is excess some leaf is shorter than the limit, so the search for one ends |
| HuffmanLengths.Reassign | src/external/zlib/trees.c:552-564 | Giving out the repaired lengths in order of frequency uses every count up and adjusts opt_len by the differences |
| HuffmanCodes.GenCodes | src/external/zlib/trees.c:575-607 | Every symbol with a length gets its canonical code of section 3.2.2 of RFC 1951, reversed |
| HuffmanCodes.BiReverse | src/external/zlib/trees.c:1154-1164 | The loop reverses the low len bits |
| Canonical.PrefixFree | src/external/zlib/trees.c:575-607 | Canonical codes of a set of lengths that is not over-subscribed are prefix free |
| RunLength.ScanTree | src/external/zlib/trees.c:705-744 | Counts exactly the symbols that send_tree sends, and sets the guard |
| RunLength.RoundTripTwo | src/external/zlib/inflate.c:936-982 | Reading the repeat codes of both trees in one go rebuilds both arrays of lengths |
| RunForms.ItemsAreRuns | src/external/zlib/trees.c:705-795 | The coding is that of the runs: zeros in chunks of up to 138, from three on as one symbol; other lengths once and then in repeats of up to six, from three on as one symbol |
| BlockWriter.SendTree | src/external/zlib/trees.c:750-795 | The bits written are those of the run-length coding, each count in its 2, 3 or 7 bits |
| BlockWriter.SendAllTrees | src/external/zlib/trees.c:836-860 | The header of a dynamic block, as section 3.2.7 of RFC 1951 lays it out; the order of the lengths is that of `FormatTables.OrderIs` |
| FormatTables.OrderIs | src/external/zlib/trees.c:71-72 | The code length code is sent in the order 16, 17, 18, 0 and then alternately 8 upwards and 7 downwards; encoder and decoder use it |
| FormatTables.RepeatIs | src/external/zlib/inflate.c:946-975 | What each symbol of the code length alphabet means, with its bits and counts in numbers |
| FormatTables.BlockStarts | src/external/zlib/inflate.c:836-861 | The three bits in front of a block: last, and 0, 1 or 2 for stored, fixed and dynamic |
| FormatTables.StoredBytesAre | src/external/zlib/trees.c:1205-1225 | A stored block is, behind the padding, the bytes of its length and of the complement, the lower one first, and the data |
| BlockWriter.CompressBlock | src/external/zlib/trees.c:1060-1105 | The bits of the tokens in order and of END_BLOCK |
| BlockCost.BodyLength | src/external/zlib/trees.c:488-525 | Frequencies times lengths plus extra bits are the bits of the body |
| StaticTables.TrStaticInit | src/external/zlib/trees.c:234-314 | The filled tables map every length and every distance to the one code of section 3.2.5 of RFC 1951 whose range contains it |
| FormatTables.LengthCodeIs | src/external/zlib/trees.c:62-63 | First length and extra bits of every length code in closed form |
| FormatTables.DistCodeIs | src/external/zlib/trees.c:65-66 | First distance and extra bits of every distance code in closed form |
| FixedTrees.StaticTrees | src/external/zlib/trees.c:271-314 | The fixed trees hold the table of section 3.2.6 of RFC 1951: 8 bits from 0x30 below 144, 9 from 0x190 below 256, 7 from 0 below 280 and 8 from 0xc0 above, reversed, and 5 bits for distances |
| FixedTrees.FixedCodeIs | src/external/zlib/trees.c:293-301 | The canonical codes of the fixed lengths, which the decoder reads as well, are those numbers |
| FormatTables.FixedTokenIs | src/external/zlib/trees.c:1060-1105 | The bits of every token in a fixed block: codes with the highest bit first, extra bits with the lowest first |
| FormatTables.FixedEndIs | src/external/zlib/trees.c:1103-1104 | A fixed block ends with seven zero bits |
| BitWriter.Writer.SendBits | src/external/zlib/trees.c:213-225 | The bits written so far grow by exactly the low bits of the value, across the 16-bit buffer |
| BitWriter.Writer.Flush | src/external/zlib/trees.c:1169-1181 | Moves whole bytes out and changes no bit |
| BitWriter.Writer.Windup | src/external/zlib/trees.c:1186-1199 | Pads with zero bits to the next byte |
| BitWriter.Writer.CopyBlock | src/external/zlib/trees.c:1205-1226 | Padding, length, complement and data of a stored block |
| Blocks.StreamTrip | src/external/zlib/inflate.c:826-1196 | Decoding any sequence of well-formed blocks that expands yields exactly the expansion and the tokens, and stops behind the last bit |
| Blocks.OneBlock | src/external/zlib/inflate.c:826-1168 | The same for one stored, fixed or dynamic block, with anything behind it |
| BlockTrip.TokensTrip | src/external/zlib/inflate.c:1021-1168 | The codes and extra bits of tokens read back as these tokens |
| InflateTable.InflateTable | src/external/zlib/inftrees.c:32-305 | Returns -1 exactly for over-subscribed sets and for incomplete ones, except a single one-bit code for literals or distances; 1 exactly when the space a literal/length or distance table needs, a function of the lengths and root bits, exceeds ENOUGH; 0 otherwise, with a table of exactly that size in which root and at most one sub-table lookup on any bits gives the symbol whose code they begin with and its length, and an invalid marker where no code fits; nothing before the table is touched |
| FormatTables.RefusedIs | src/external/zlib/inftrees.c:127-140 | The lengths refused are those whose codes take up more than all 15-bit numbers, or some but not all of them, except for a single one-bit code for literals or distances |
| TableSpace.SubBitsMeans | src/external/zlib/inftrees.c:268-276 | The size counted for a root prefix is that of its longest code: some code with the prefix is that much longer than root and none is longer |
| TableBound.SizeBound | src/external/zlib/inftrees.h:38-51 | Root table and sub-tables for the prefixes used up by codes of c bits more have at most 2^root entries, one for each of these longer codes, and 2^c - c - 1 more |
| TableBound.LensSuffice | src/external/zlib/inftrees.h:38-51 | With at most 286 symbols and nine root bits no admissible set of lengths needs more than ENOUGH_LENS entries |
| TableBound.DistsSuffice | src/external/zlib/inftrees.h:38-51 | With at most 30 symbols and six root bits no admissible set of lengths needs more than ENOUGH_DISTS entries |
| InflateTable.BackIncrement | src/external/zlib/inftrees.c:241-250 | Incrementing a reversed code from its top bit gives the reversal of the next code |
| CodeReader.ReadCode | src/external/zlib/inflate.c:1040-1055 | Reads the one symbol whose code the stream begins with, or keeps the stream and asks for input exactly if no code is determined; fewer than eight bits stay held |
| CodeReader.FastCode | src/external/zlib/inffast.c:127-132 | The same without checking for input when fifteen bits are held |
| BitReader.Reader.NeedBits | src/external/zlib/inflate.c:499-503 | Loads bytes without changing the stream of bits, or tells that the input has too few |
| BitReader.Reader.DropBits | src/external/zlib/inflate.c:510-514 | Takes bits off the stream |
| BitReader.Reader.ByteBits | src/external/zlib/inflate.c:517-521 | Drops to the next byte of the stream |
| BitReader.Reader.ReturnBytes | src/external/zlib/inffast.c:309-313 | Gives unused bytes back without changing the stream; fewer than eight bits stay held |
| Inflate.Inflater.DoType | src/external/zlib/inflate.c:828-863 | Block header: the machine stays on the run of the decoder |
| Inflate.Inflater.DoTable | src/external/zlib/inflate.c:897-914 | Counts of a dynamic block, with the refusal of too many symbols |
| Inflate.Inflater.DoCodeLens | src/external/zlib/inflate.c:936-1018 | Code lengths with repeats, the refusals, and both tables, which never lack space |
| Inflate.Inflater.DoLen | src/external/zlib/inflate.c:1039-1069 | Literal, length, end of block or invalid code |
| Inflate.Inflater.DoDist | src/external/zlib/inflate.c:1080-1106 | Distance code |
| Inflate.Inflater.DoMatch | src/external/zlib/inflate.c:1123-1167 | The copy from output or window equals the byte-by-byte rule out[i] = out[i - distance], as far as there is room |
| Inflate.Inflater.InflateFast | src/external/zlib/inffast.c:67-324 | From mode LEN with six bytes of input and 258 of room: stays on the decoder's run, never reads past the input nor before it, makes progress, leaves with mode LEN, TYPE or BAD and fewer than eight bits held, and the output is the decoder's |
| Inflate.Inflater.Inflate | src/external/zlib/inflate.c:605-1252 | For every input: the state is one that the run of the decoder goes through, the output is the decoder's, the window holds the last bytes of it, and the call ends only at CHECK or BAD, without usable input, or with a full buffer and a byte to put; what the tables of the decoder hold is told by `FormatTables` and `FixedTrees.FixedCodeIs` |
| Resume.Drive | src/external/zlib/inflate.c:605-1252 | After calls with any pieces of input and any buffers the machine is on the run of the decoder over the concatenated input; if the last call did not end for want of room it is at the end of that run, and mode CHECK and BAD are those of the run |
| Resume.Resumable | src/external/zlib/inflate.c:605-1252 | Two ways of cutting the same input and output end in the same state with the same output; what a run that is cut short has put out is the beginning of the whole; for windows of 32768 bytes without any condition on the stream |
| Resume.FullWindowTame | src/external/zlib/inflate.c:1123-1145 | With a window of 32768 bytes no stream reaches back further than the window |
| InflateWindow.Window.Update | src/external/zlib/inflate.c:379-427 | After any updates the ring holds the last min(total, wsize) bytes of the output, and wnext is whave while it is not full |
| Decoder.RunSplit | src/external/zlib/inflate.c:605-1252 | Running on more input is running on the first part and then on the rest |
| Decoder.RunTokens | src/external/zlib/inflate.c:1021-1168 | However a run ends, its output is the expansion of the tokens it read, a copy under way completed; if the stream was refused, except for a last match that was refused itself |
| CrcSpec.CrcConcat | src/external/zlib/crc32.c:355-408 | The check value of a concatenation from those of the parts and zero bits moved over the second |
| CrcSpec.DivideWord | src/external/zlib/crc32.c:72-83 | Dividing the bits of a word one by one is adding the word to the register and shifting |
| Crc.MakeTables | src/external/zlib/crc32.c:90-133 | Table k holds every byte divided with k zero bytes behind it, the other four the same with bytes reversed; the polynomial made from the exponents is 0xedb88320 |
| Crc.Crc32Bytes | src/external/zlib/crc32.c:219-236 | The byte-wise loops compute the bit-by-bit division with inversion before and after (section 8 of RFC 1952) |
| CrcWords.Crc32Little | src/external/zlib/crc32.c:247-278 | Alignment, eight words at a time, single words and the tail: the same value for every buffer, address and initial value |
| CrcWords.Crc32Big | src/external/zlib/crc32.c:289-320 | The same on a machine of the other byte order, with the register reversed |
| CrcWords.Crc32 | src/external/zlib/crc32.c:204-236 | The value does not depend on the machine or the alignment; zero without a buffer; it is the one CRC whose residue is 0x2144df1c (`CrcResidue.Residue`) |
| CrcResidue.Residue | src/external/zlib/crc32.c:219-236 | For all data, the check value of data with its own check value behind, lowest byte first, is 0x2144df1c: polynomial, bit order and inversion |
| CrcResidue.OnesCheck | src/external/zlib/crc32.c:219-236 | Four bytes 0xff have the check value 0xffffffff: the inversion before and after |
| CrcCombine.Square | src/external/zlib/crc32.c:344-352 | Squaring the matrix of k zero bits gives that of 2k |
| CrcCombine.Combine | src/external/zlib/crc32.c:355-408 | For all A and B, combining crc(A), crc(B) and the length of B gives crc(A + B); the matrices run through successive powers of two; a length of zero or less gives crc1 |
| Adler.Adler32 | src/external/zlib/adler32.c:65-133 | All branches (no buffer, one byte, short, blocks of NMAX) compute the per-byte sums of section 2.2 of RFC 1950 |
| Adler.Deferred | src/external/zlib/adler32.c:99-129 | Reducing once after many bytes is reducing after every byte |
| Adler.NoOverflow | src/external/zlib/adler32.c:14-16 | NMAX bytes never carry the sums past 2^32 - 1 |
| Adler.NmaxIsLargest | src/external/zlib/adler32.c:15-16 | NMAX is the largest such number |
| Adler.Mod28 | src/external/zlib/adler32.c:35-39 | Below 2^28 the division-free form is the remainder by 65521 |
| Adler.Mod32 | src/external/zlib/adler32.c:40-44 | The same for 32 bits |
| Adler.Mod63 | src/external/zlib/adler32.c:45-57 | The same for 63 bits |
| Adler.Combine | src/external/zlib/adler32.c:136-162 | For all A and B, combining adler(A), adler(B) and the length of B gives adler(A + B); a negative length gives 0xffffffff |
| Messages.Message.AddField | src/message.cpp:54-117 | The payload grows by tag, length and value of the field; growing the buffer loses nothing |
| Messages.Message.GetField | src/message.cpp:159-195 | Finds the first payload added under a tag, and reports none exactly when there is none; the scan ends |
| Messages.Message.FromHeader | src/message.cpp:29-52 | A message made from a received header has its fields and a buffer of the announced size |
| Messages.PacketsDelimited | src/message.hpp:56-67 | The wire form says itself where it ends: two messages with a common continuation are the same |
| Messages.HeaderIs | src/message.hpp:57-67 | The thirteen bytes of a header: version, kind, payload size and result code, each number with its lowest byte first |
| Messages.FieldIs | src/message.cpp:100-112 | The bytes of a field: tag and length with the lowest byte first, then the value |
| Sockets.Socket.SendData | src/socket.cpp:220-279 | Whatever parts are accepted, what has been sent is a beginning of the data, all of it exactly on success, with the error of the round that failed |
| Sockets.Socket.RecvData | src/socket.cpp:281-344 | The buffer holds the next bytes in order, all of them exactly on success |
| Sockets.TransferEnds | src/socket.cpp:239-275 | A transfer succeeds exactly when everything moved |
| Sockets.SteadySucceeds | src/socket.cpp:302-340 | A channel that always moves something completes the transfer |
| Sockets.Socket.SendMessage | src/socket_server.cpp:111-138 | All of header and payload on success, otherwise a proper beginning: exactly as much as the two transfers move |
| Sockets.Socket.RecvMessage | src/socket_server.cpp:79-109 | Success exactly if both receives complete, and then the message is the one whose bytes arrived next; the error is that of the receive that failed |
| Sockets.Socket.SendAndReceive | src/socket_client.cpp:76-126 | Success exactly if both sends complete and then both receives; what went out is as much of the request as the sends moved, all of it on success, and the answer is the message that arrived |
| Sockets.SteadyExchange | src/socket_client.cpp:76-126 | On a channel that always moves something a request goes out and an answer that arrives is received |
| Sockets.Socket.Connect | src/socket_client.cpp:19-74 | Connected exactly if one of three attempts succeeded after the socket was created and made non-blocking; attempts stop at the first success |
| Sockets.Transport | src/socket_server.cpp:79-138 | A message received after any partial sends and receives was sent whole, is the one assembled, and yields for each tag the first payload added under it or none; on a steady channel it is received |
| Queues.Queue.Add | src/queue.cpp:67-83 | Below 2^32 messages the message is behind all others and nothing else changes; beyond, the number wraps and a message whose number is taken is not entered |
| Queues.Queue.Peek | src/queue.cpp:16-42 | Gives the message with the least number, which below 2^32 messages is the oldest one left, or zero exactly for an empty queue |
| Queues.Queue.Remove | src/queue.cpp:44-65 | Takes out the message with the number, if there is one; with the number peek gave the second oldest becomes the oldest |
| Queues.HoldsPeek | src/queue.cpp:16-42 | Below 2^32 messages peek gives the oldest one left, and zero exactly if there is none |
| Queues.WrapBlocks | src/queue.cpp:76-76 | The 2^32-th message gets number zero: peek then reports an empty queue for good |
| Queues.StaysBlocked | src/queue.cpp:16-65 | Once number zero is in the queue nothing can be taken out by peek and remove |
| Events.ProcessEvent | src/client_process_event.cpp:12-54 | A round of the client: the oldest message leaves the queue exactly when the socket connects, it goes out whole and an answer arrives whole; on any failure the queue is as before; what went out is as much of the message as the sends moved |
| Events.Forward | src/proxy_main.cpp:125-153 | A round of the proxy: the oldest message leaves the queue whatever happens on the connection; what went out is as much of it as the sends moved, all of it when the socket connects and the channel is steady |
| Events.SteadyAnswered | src/socket_client.cpp:19-126 | With a socket that connects and a steady channel the message goes out whole, and with an answer arriving the exchange succeeds |
| Events.ShowNext | src/head_main.cpp:186-204 | A round of the head: exactly the oldest message is shown and leaves the queue |
| Events.TakeOver | src/proxy_main.cpp:36-92 | A round of the reading thread: a message is queued, behind the others, exactly if it arrives whole and is an event (100); then an acknowledgement goes out, a beginning of the thirteen bytes of an empty message of kind 101, all of them if the channel stays steady, and nothing otherwise |
| Events.AcknowledgementIs | src/proxy_event.cpp:11-21 | The acknowledgement is version 1, kind 101, no payload and result code 0 |
| Links.TakeOverOk | src/proxy_event.cpp:11-21 | The message taken over stands in the log behind all that were taken over before, and is the very next when the sender never went on after a failure; the invariant is kept |
| Links.AnsweredOk | src/client_process_event.cpp:20-45 | An answer reaches the sender only when the message it holds has been taken over; the invariant is kept |
| Links.DeliveredIs | src/proxy_main.cpp:125-153 | What came over a link is the log with some messages left out, in order and none twice, and a prefix of it that contains everything removed when the sender stops at failures or had none |
| Links.Dropped | src/proxy_main.cpp:139-150 | A message the proxy could not connect for leaves its queue and is on no connection |
| Relay.HappenOk | src/head_main.cpp:186-204 | Every step of any thread of client, proxy and head keeps the invariant of the whole system |
| Relay.RelaySafe | src/client_process_event.cpp:12-54 | In every state of every run with fewer than 2^32 events: what the proxy queued is a prefix of what the client queued; an event leaves the client's queue only after the proxy queued it; what the head shows is a subsequence of it, complete while the proxy had no failure; a peeked message stays in its queue until its consumer removes it |

## Left out

- Cutting.CutFree: needs the window to have slid to the edge named in `Cutting.EdgeIs` at the same rounds, because there the tokens do depend on the pieces of the input.
- Resume.Resumable: needs, for windows below 32768 bytes, a stream whose distances fit the window; with other streams the outcome depends on how the output is cut, because `inflate` then may find the distance in the output buffer.
- Relay.RelaySafe: assumes that connections are accepted in the order they were made, which is the kernel's doing, and one client that sends events; other processes may connect with other messages at any time.
- Queues.Queue.Add: memory of a message that finds its number taken is not modelled.
- `deflate_stored`, level 0, flushing with empty blocks (`_tr_align`, `_tr_stored_block` from `deflate`), `deflateParams` in the middle of a stream: level and strategy are fixed during a run.
- Zlib and gzip headers and trailers, preset dictionaries, `inflatePrime`, `inflateMark`, `inflateCopy`, `inflateSync`, `inflateBack`, the gzip file layer and the `compress` and `uncompress` wrappers.
- The overlay of `pending_buf` with the token buffers: they are separate, `pending` is unbounded, and whether the caller has room after a block is a parameter of a call.
- Modes that differ from others only in what a caller sees or with other flush values (`LEN_`, `COPY_`, `TYPE` beside `TYPEDO`); `Z_BLOCK` and `Z_TREES`.
- The precomputed tables of `crc32.h`, `trees.h` and `inffixed.h`: the tables are computed by the code that generates them, those for the fixed codes by `inflate_table`.
- `INFLATE_STRICT`, `INFLATE_ALLOW_INVALID_DISTANCE_TOOFAR_ARRR`, `FASTEST`, `UNALIGNED_OK` and debug builds.
- In the compressing loops the wrapping 16-bit counters of frequencies are exact because a block has fewer than 32768 tokens.
- Some local variables of `inflate_fast` and of the loops are fields of their class, so that methods can share them.
- Real sockets, `select` with its time, sleeping, threads and the mutex: outcomes are parameters, queue operations are atomic steps.
- The answers to messages that are no events (version, configuration, registration, command), and what the head does at its start.
- `deflateTune` with fewer than four chain steps, for which `longest_match` would count below zero.
- Malformed payloads of messages, the fixed buffers they are copied into, and what the head prints.
- Allocation failure, error strings and return codes that only repeat the mode.
