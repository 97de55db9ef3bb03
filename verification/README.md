# Verified models of the vehicle stack and of its BusyBox tools

This project models, in Dafny, the parts of the repository whose correctness is least obvious, and
proves what they are for. The models follow the C and C++ code branch by branch: what the code does in
place is done in place here, on arrays and objects, with loops and invariants; each such method is proved
against a specification that does not mention it.

**gzip** (`busybox/archival/gzip.c`, `busybox/libbb/crc32.c`). The whole compressor: the bit queue, the sliding
window with its hash chains, lazy matching, token buffers, Huffman trees built on a heap, the repair of over-long
codes, canonical codes, run-length coded tree headers, the choice among stored, static and dynamic blocks, the CRC,
and the member around it all. A decoder written from RFC 1951 (`Inflate.dfy`) and RFC 1952 (`Gzip.dfy`) is the
specification. The main theorem is the contract of `Gzip.Zip`: for every input, however it is cut into reads, reading
the output as a gzip member gives back exactly the input. On the way: the trees are optimal, the repaired code lengths
fill the Kraft sum exactly, the hash chains hold every earlier string in reach, the predicted sizes are the sizes of the
encodings, a stored block always fits its length field, and the block sent is the smallest exactly when two conditions
on the sizes and the starting bit are false.

**The vehicle network** (`src/protocol.h`, `src/gateway.h`). Nodes exchange text messages over a network that
loses, repeats and reorders packets. A message is read back as it was written; over every run, a node passes
the READY/GO barrier only when its whole group has arrived; over every run, each clock sample comes from three looks
at the clocks in the order in which the messages passed, and is the clock difference up to half the difference of the
two transit times, exactly when no 64-bit word overflows. Runs in which the barrier opens, for any group size, and in
which a sample arrives, for any clocks and transit times, are exhibited.

**factor** (`busybox/coreutils/factor.c`, `busybox/libbb/isqrt.c`). Trial division with a packed wheel and a
recursion on perfect squares prints the prime factors in order, for every 64-bit number.

**expr** (`busybox/coreutils/expr.c`). The evaluator, which builds no tree, computes the value that the grammar
gives; parsing and writing are inverse to each other.

**dpkg** (`busybox/archival/dpkg.c`). The version comparison is a total preorder given by a lexicographic key;
the double-hashed name table gives equal numbers to equal names and to no others.

**lzop** (`busybox/archival/lzop.c`). Adler-32 with reductions put off for 5552 bytes is Adler-32.

Parameters stand for what is outside: the results of the reads (`chunks`), the current time, the output buffer
size, `LIT_BUFSIZE`, `DIST_BUFSIZE`, `HASH_BITS` and the compression level, regular expression matching, `atoi`.

## Where the code differs from what is said about it

- The comments of `flush_block` promise the best encoding. There are two exceptions. The test for a stored block
  (gzip.c:1730) leaves out the byte that holds its own header, and the one more that padding takes when fewer than three
  bits are free. And the two compressed sizes are compared in bytes counted from the start of the block, which need not
  be a byte boundary: a tie goes to the static code although the dynamic one may end a byte earlier.
  `BlockChoice.ChosenIsSmallestIff` is exact for every starting bit, `BlockCost.FlushedIsSmallestIff` says it of the
  blocks that are sent, and `BlockCost.FifteenBytes` and `Deflating.FifteenFile` are a file that is sent in a byte too
  many.
- The comment of `scan_tree` says that it updates opt_len for the repeat counts; the code does not, the extra bits are
  counted in `gen_bitlen` (gzip.c:1199).
- `longest_match` asserts strstart <= WINDOW_SIZE - MIN_LOOKAHEAD (gzip.c:736). That holds until the end of the input is
  seen (`Matching.Matcher.FillWindowIfNeeded`); from then on the window no longer slides and nothing keeps strstart
  there, so that comparisons run past the last input byte. The model gives the window array MAX_MATCH bytes more, with
  arbitrary contents, and shows that they never matter.
- The comment of `version_compare` promises -1, 0 or 1; only the sign is meant (dpkg.c:279-282).
- expr compares as text when one side is no number, but a side that is one has been converted already: it is
  compared by its decimal digits, not as it was written (`ExprValues.Compare`).
- expr's comparison is no order when numbers and other texts are mixed: 2 < 10, 10 < 1a and 1a < 2
  (`ExprValues.LessCycle`). `ExprValues.LessTransitiveIff` says for which three values it fails, and
  `ExprValues.CycleIff` for which two numbers there is such a third value: those that their digits put in the other
  order.
- The clock offset is within half the round trip only while the 64-bit words do not overflow:
  `ClockSync.SampleIsClose` has the exact condition, `ClockSync.FarApart` a case beyond it.

## Model

| member | source | states |
|---|---|---|
| BitQueues.BitQueue.SendBits | busybox/archival/gzip.c:541-575 | bytes written, bytes buffered and queued bits together grow by exactly the bits of the value, lowest first |
| BitQueues.BitQueue.Put16 | busybox/archival/gzip.c:445-481 | either store width appends the two bytes, low byte first, and the buffer is flushed before it overflows |
| BitQueues.BitQueue.Put32 | busybox/archival/gzip.c:484-499 | appends the four bytes, low byte first, whichever store width is used |
| BitQueues.BitQueue.BiWindup | busybox/archival/gzip.c:596-609 | completes the last byte with zero bits and leaves the queue empty |
| BitQueues.BitQueue.CopyBlock | busybox/archival/gzip.c:615-631 | aligns, then sends length, its complement and the bytes |
| Canonical.BiReverse | busybox/archival/gzip.c:581-591 | the low bits of the code in reverse order |
| Canonical.GenCodes | busybox/archival/gzip.c:1254-1288 | every symbol gets the code of section 3.2.2 of RFC 1951 for its length, bit-reversed; other entries keep their value |
| Canonical.PrefixFree | busybox/archival/gzip.c:1254-1288 | when the Kraft bound holds no code is a prefix of another |
| Canonical.DecodeEncode | busybox/archival/gzip.c:1254-1288 | the first symbol whose code starts a bit string is the symbol that was encoded |
| Heaps.PqDownHeap | busybox/archival/gzip.c:1127-1149 | heap order is restored from the given slot on, by a permutation of the slots that leaves the others alone |
| Heaps.RootIsLeast | busybox/archival/gzip.c:1123-1149 | in heap order the root is a least node, ties broken by depth |
| TreeBuilding.PqRemove | busybox/archival/gzip.c:1299-1311 | removes a node of least frequency and keeps heap order for the rest |
| TreeBuilding.MergeAll | busybox/archival/gzip.c:1363-1385 | joins two least nodes until one is left; the heap array lists every father before its sons |
| TreeBuilding.BuildTree | busybox/archival/gzip.c:1312-1394 | exactly the occurring symbols, and as many forced ones as make two, get codes that fill the Kraft sum; opt_len and static_len grow by the bits of the occurring symbols; without overflow the lengths have least total cost |
| Huffman.Optimal | busybox/archival/gzip.c:1312-1394 | depths from merging two least nodes each time cost no more than any lengths within the Kraft bound |
| TreeBuilding.NoTreeCheaper | busybox/archival/gzip.c:1312-1394 | when nothing was clipped, the lengths of the built tree cost no more than the leaf depths of any binary tree over the same symbols |
| Huffman.CostIsMerges | busybox/archival/gzip.c:1363-1385 | the total cost of the depths is the sum of the weights of the merged nodes |
| BitLengths.TreeBuilder.FirstPass | busybox/archival/gzip.c:1161-1203 | lengths are depths clipped at the limit, counted per length, and overflow is the number of clipped nodes |
| BitLengths.TreeBuilder.RepairCounts | busybox/archival/gzip.c:1210-1222 | the search never runs off; the number of leaves stays and the Kraft sum becomes exactly full |
| BitLengths.TreeBuilder.GenBitLen | busybox/archival/gzip.c:1161-1243 | the final lengths match the counts, stay within the limit and fill the Kraft sum exactly; overflow is even; opt_len and static_len are the sums of frequency times length, modulo 2^32 |
| Levels.SearchSucceeds | busybox/archival/gzip.c:1211-1214 | while the Kraft sum is too large there is a shorter length to split |
| Levels.RepairRound | busybox/archival/gzip.c:1212-1221 | one round lowers the Kraft sum by one unit and keeps the number of leaves |
| TreeShape.ClippedKraft | busybox/archival/gzip.c:1177-1203 | clipping adds to the Kraft sum exactly the inner nodes at the limit |
| RunLength.ScanTree | busybox/archival/gzip.c:1402-1447 | counts exactly the symbols of the run-length code |
| RunLength.SendTree | busybox/archival/gzip.c:1454-1505 | sends exactly the symbols of the run-length code, each with its repeat count |
| RunLength.RoundTrip | busybox/archival/gzip.c:1402-1505 | expanding the run-length code gives back the lengths, after whatever came before, and every repeat count fits its field |
| Tables.LengthDecodes | busybox/archival/gzip.c:1983-1996 | length code and extra bits give back the match length by the table of section 3.2.5 of RFC 1951 |
| Tables.DistDecodes | busybox/archival/gzip.c:1998-2013 | distance code and extra bits give back the distance |
| Tables.CodeTables.constructor | busybox/archival/gzip.c:1983-2013 | the lookup tables hold the codes of all lengths and distances |
| Tables.CodeTables.DCode | busybox/archival/gzip.c:1084-1085 | the two-part lookup finds the distance code |
| StaticTrees.InitStaticLiterals | busybox/archival/gzip.c:2020-2048 | the fixed literal code of section 3.2.6 of RFC 1951 |
| StaticTrees.InitStaticDistances | busybox/archival/gzip.c:2050-2054 | the fixed distance code |
| StaticTrees.StaticKraft | busybox/archival/gzip.c:2020-2048 | the fixed literal code fills the Kraft sum exactly, so it is prefix-free |
| Tokens.CopyRepeats | busybox/archival/gzip.c:1854-1856 | copying back over data that repeats at the distance, overlapping or not, reproduces the data |
| Tokens.BlockSize | busybox/archival/gzip.c:1199-1202 | the bits of a block are the sum over all symbols of frequency times code length and extra bits |
| Tally.TokenBuffer.CtTally | busybox/archival/gzip.c:1573-1626 | appends one token to literal, distance and flag buffers, counts its symbols, and says when the block is full or better ended |
| Tally.TokenBuffer.SaveFlags | busybox/archival/gzip.c:1685-1685 | all flag bytes of the buffered tokens are stored |
| CompressedBlocks.CompressBlock | busybox/archival/gzip.c:1630-1673 | sends the codes and extra bits of the buffered tokens in order, and the end-of-block code |
| BlockCoding.BlockCoder.BuildBlTree | busybox/archival/gzip.c:1511-1537 | the tree of the code lengths has a code for every symbol of both tables, all lengths after the returned rank are zero, and opt_len grows by the bits of the header |
| BlockCoding.BlockCoder.SendAllTrees | busybox/archival/gzip.c:1545-1567 | sends the header that section 3.2.7 of RFC 1951 describes |
| BlockCoding.BlockCoder.InitBlock | busybox/archival/gzip.c:1095-1112 | frequencies and buffers of an empty block |
| BlockCoding.BlockCoder.FlushBlock | busybox/archival/gzip.c:1680-1766 | what is sent is the chosen encoding of the tokens, bit by bit, with trees that code exactly the occurring and the forced symbols; the choice was made from the exact sizes of all three encodings; decoding the block takes the output from what it was to what the tokens mean |
| BlockCoding.NewCoder | busybox/archival/gzip.c:1969-2058 | a coder ready for its first block |
| BlockChoice.ChosenIsSmallestIff | busybox/archival/gzip.c:1703-1753 | from every starting bit, the chosen encoding ends in the earliest byte if and only if neither the stored form is too long for its test nor the static form loses a tie |
| BlockChoice.SmallestFromBoundary | busybox/archival/gzip.c:1703-1753 | from a byte boundary that is so if and only if the stored length plus 4 is not exactly the smaller compressed size |
| BlockChoice.TieExample | busybox/archival/gzip.c:1703-1745 | sizes, and a starting bit, for which the static form is chosen and ends a byte after the dynamic one |
| BlockCost.FlushedIsSmallestIff | busybox/archival/gzip.c:1680-1766 | the same for the bit strings: a flushed block ends as early as every encoding of its tokens with its trees if and only if neither exception applies |
| BlockChoice.ChosenIsNearSmallest | busybox/archival/gzip.c:1703-1753 | from any bit the choice costs at most two bytes |
| BlockCost.FifteenBytes | busybox/archival/gzip.c:1730-1741 | a file of the bytes 144 to 158 can only become fifteen literals, is stored in 20 bytes whatever trees are built, and has a static encoding of 19 |
| BlockCost.OnlyLiterals | busybox/archival/gzip.c:1573-1626 | bytes that never repeat can only be sent as literals |
| BlockCost.HeaderCost | busybox/archival/gzip.c:1511-1567 | without matches the forced distance codes make every dynamic header at least 84 bits long |
| BlockCost.DataCost | busybox/archival/gzip.c:1254-1288 | the codes of different bytes cannot all be short: a lower bound for every code within the Kraft sum |
| BlockChoice.StoredFits | busybox/archival/gzip.c:1730-1741 | a block that is sent stored is shorter than 65536 bytes, so its length field is exact |
| InflateRoundTrip.ReadTokensOf | busybox/archival/gzip.c:1630-1673 | decoding a compressed block gives back its tokens |
| InflateRoundTrip.ReadCodesOf | busybox/archival/gzip.c:1545-1567 | decoding a dynamic header gives back both tables of lengths, though their runs share one stream |
| InflateRoundTrip.StoredBlockRead | busybox/archival/gzip.c:615-631 | decoding a stored block gives back its bytes |
| InflateRoundTrip.StaticBlockRead | busybox/archival/gzip.c:1743-1745 | decoding a static block expands its tokens |
| InflateRoundTrip.DynamicBlockRead | busybox/archival/gzip.c:1747-1751 | decoding a dynamic block expands its tokens |
| Hashing.KeyOfThree | busybox/archival/gzip.c:1768-1774 | the rolling key depends on the last three bytes only |
| Hashing.ThirdByte | busybox/archival/gzip.c:752-758 | strings with equal keys that agree on two bytes agree on the third, which is why it need not be compared |
| Windows.HeadsSlid | busybox/archival/gzip.c:661-675 | sliding the window keeps every chain head on the latest string with its key that is still in the window |
| Windows.ChainsSlid | busybox/archival/gzip.c:661-679 | sliding keeps every link of the last WSIZE strings on the latest earlier string with the same key |
| Windows.CandidatesAre | busybox/archival/gzip.c:741-783 | the positions that a search visits strictly decrease, share the key and lie in reach; when the chain was not cut short they are all such positions |
| Windows.LongestOfAll | busybox/archival/gzip.c:710-784 | when the chain was not cut short, no earlier string in reach, on the chain or not, matches more bytes than the best candidate |
| Matching.Matcher.InsertString | busybox/archival/gzip.c:1803-1808 | returns the former head of the chain of the string, which is the latest earlier string with its key; head and link are updated and all chains stay right |
| Matching.Matcher.FileRead | busybox/archival/gzip.c:512-537 | CRC register and size are those of all the input read |
| Matching.Matcher.FillWindow | busybox/archival/gzip.c:641-689 | the window holds the end of the input, positions in the input do not change, chains and key stay right, something is read or the end is noted |
| Matching.Matcher.FillWindowIfNeeded | busybox/archival/gzip.c:691-695 | afterwards the input is at its end, or the lookahead is at least MIN_LOOKAHEAD and strstart at most WINDOW_SIZE - MIN_LOOKAHEAD |
| Matching.Matcher.LongestMatch | busybox/archival/gzip.c:710-784 | a result above prev_length is a true match within MAX_DIST, and no candidate on the searched part of the chain is longer unless the result is at least nice_match |
| Matching.Matcher.MatchLength | busybox/archival/gzip.c:758-770 | the unrolled comparison returns the length of the common prefix, 258 at most |
| Matching.Matcher.FindMatch | busybox/archival/gzip.c:1818-1850 | a match longer than the previous one lies within the input and within MAX_DIST, and one of three bytes within TOO_FAR |
| Matching.Matcher.SkipMatch | busybox/archival/gzip.c:1858-1874 | all strings inside the match are in the dictionary and strstart is at its end |
| Matching.Matcher.LmInit | busybox/archival/gzip.c:1927-1960 | an empty dictionary, a filled window and a started key, whatever prev held |
| Deflating.Deflater.EmitMatch | busybox/archival/gzip.c:1851-1878 | the tokens cover the input up to the end of the match |
| Deflating.Deflater.EmitLiteral | busybox/archival/gzip.c:1879-1891 | the tokens cover one byte more |
| Deflating.Deflater.Step | busybox/archival/gzip.c:1818-1899 | one round keeps the invariant: blocks sent decode to the input before the block, tokens expand to the input of the block, chains and key are right |
| Deflating.Deflater.Deflate | busybox/archival/gzip.c:1810-1912 | what was sent is a complete stream for all of the input |
| Deflating.Compress | busybox/archival/gzip.c:1810-1960 | for every input and every way of reading it, a decoder that follows RFC 1951 gets the input back and stops where the stream ends; an input shorter than the buffers is one flushed block; CRC register and size are those of the input |
| Deflating.FifteenFile | busybox/archival/gzip.c:1730-1753 | a file of the bytes 144 to 158 becomes 20 bytes of blocks |
| Gzip.MemberRead | busybox/archival/gzip.c:2064-2103 | a header, a complete stream, the CRC and the size of its content are a member of section 2.3 of RFC 1952 |
| Gzip.Zip | busybox/archival/gzip.c:2064-2103 | for every file, however it is read and whatever the table sizes, reading the bytes written as a gzip member gives the file back and stops at their end |
| Crc32.FillTable | busybox/libbb/crc32.c:22-43 | each entry is eight steps of the shift register |
| Crc32.LookUp | busybox/libbb/crc32.c:66-75 | one table look-up does eight steps of the register for any contents |
| Crc32.Update | busybox/libbb/crc32.c:66-75 | the register after all the bytes, bit by bit as polynomial division defines it |
| Crc32.OneByteDetected | busybox/libbb/crc32.c:66-75 | data in which one byte was changed has another CRC |
| Wire.ParseBuild | src/protocol.h:104-182 | every message is read back as it was written, whatever its body contains |
| Wire.GenerateMac | src/protocol.h:206-214 | the check code of the text up to the first zero character |
| Wire.CodeSmall | src/protocol.h:206-214 | the check code is one byte |
| Wire.ChangeIsDetected | src/protocol.h:206-222 | changing a character before the first zero character to another one that is not zero is detected |
| Wire.ChangeBehindEnd | src/protocol.h:206-222 | changing a character behind the first zero character is not |
| Wire.CutIsDetectedIff | src/protocol.h:206-222 | putting a zero character into the text is detected if and only if the code of what is before it differs |
| Nodes.Protocol.NotifyByPort | src/protocol.h:444-589 | GO is sent only on the READY that completes the count, and once; the callback fires only on the first GO; a wrong check code changes nothing; everything is as the network model has it |
| Nodes.TimesReadBack | src/protocol.h:528-540 | the three times of a DELAY_REQ are read back |
| Nodes.SampleReadsBack | src/protocol.h:549-563 | offset and delay of a DELAY_RESP are read back |
| Barrier.NextKeeps | src/protocol.h:366-499 | every step of the network keeps the barrier invariant |
| Barrier.BarrierHolds | src/protocol.h:478-499 | in every run, when a node has received GO, as many nodes of its group as some node of the group waits for have passed enable_start_sync; no node sends GO or fires its callback twice |
| Barrier.GroupIsComplete | src/protocol.h:478-499 | when all nodes of the group wait for the same number of nodes, that many have |
| Barrier.GoNeedsQuorum | src/gateway.h:40-60 | the group was complete before the step in which the node received GO |
| ClockSync.SampleIsClose | src/protocol.h:542-546 | the delay is the sum of the transit times and the offset the clock difference plus half the difference of the transit times, rounded, if and only if both sums fit the signed word |
| ClockSync.CloseBound | src/protocol.h:542-546 | such an offset is off by half the delay at most, rounded |
| ClockSync.FarApart | src/protocol.h:544-546 | clocks 2^62 microseconds apart give an offset of the wrong sign |
| ClockSync.NextHonest | src/protocol.h:502-589 | every step keeps the times in packets in the order in which the clocks were read |
| ClockSync.SamplesAreClose | src/protocol.h:502-566 | in every run each sample of a worker comes from an exchange with a master: the master read its clock at t1 and t4 and the worker its own at t2, in that order, and the sample is that close if and only if the words fit |
| Runs.MessageArrives | src/protocol.h:444-475 | every control message that carries the check code of its body is parsed back, passes the check and reaches the handler of its type |
| Runs.BarrierOpens | src/protocol.h:478-499 | for any group size and any worker there is a run in which the worker receives GO and its callback fires |
| Runs.SampleTaken | src/protocol.h:502-566 | for any clocks and transit times there is a run in which the worker gets exactly the sample computed for them |
| Wheels.RowIsOk | busybox/coreutils/factor.c:60-85 | the steps of each word skip only multiples of 2, 3, 5, 7 or 11, and lead to the start of the next word |
| WheelTable.UnpackWheel | busybox/coreutils/factor.c:101-120 | unpacking the 3-bit fields gives the table of 485 steps |
| WheelTable.PosStep | busybox/coreutils/factor.c:46-85 | each step leads to the next divisor and skips nothing that could be prime |
| WheelTable.FullRound | busybox/coreutils/factor.c:88-89 | from WHEEL_START to the end of the table is one round of 2310 |
| Factoring.Isqrt | busybox/libbb/isqrt.c:20-35 | the integer square root |
| Factoring.Factorizer.IsqrtOdd | busybox/coreutils/factor.c:137-159 | a square is factored through its root, with each factor printed twice as often; otherwise the largest odd number up to the root |
| Factoring.Factorizer.DivideOut | busybox/coreutils/factor.c:195-201 | divides by the factor as often as it goes and keeps printed factors times the rest |
| Factoring.Factorizer.TrialDivide | busybox/coreutils/factor.c:187-217 | finishes the list, also when the next divisor overflows 32 bits |
| Factoring.Factorizer.Factorize | busybox/coreutils/factor.c:161-217 | prints primes in nondecreasing order whose product is the number to the power of square_count |
| Factoring.FactorNumber | busybox/coreutils/factor.c:219-232 | for every 64-bit number from 1 on the printed list is its prime factorisation |
| ExprValues.DecimalReadsBack | busybox/coreutils/expr.c:177-203 | a number turned into text is read back as the same number |
| ExprValues.WrapIs | busybox/coreutils/expr.c:247-266 | arithmetic is exact modulo 2^64, and exact if and only if the result fits |
| ExprValues.DivisionLaw | busybox/coreutils/expr.c:247-266 | dividend = quotient times divisor plus remainder, the remainder smaller than the divisor and with the sign of the dividend, except for the one quotient that does not fit |
| ExprValues.Trichotomy | busybox/coreutils/expr.c:217-243 | of any two values exactly one of <, = and > holds; the other operators are their negations |
| ExprValues.LessTransitiveIff | busybox/coreutils/expr.c:217-243 | for any three values, if a < b and b < c then a < c, if and only if they are not two numbers that their digits put in the other order and a text between those digits |
| ExprValues.CycleIff | busybox/coreutils/expr.c:217-243 | for two numbers of which the first is less, some value is above the second and below the first if and only if their digits are in the other order |
| ExprValues.LessCycle | busybox/coreutils/expr.c:217-243 | 2, 10 and 1a: each is less than the next, in a circle |
| ExprGrammar.ParseTokens | busybox/coreutils/expr.c:315-537 | a tree of a level is parsed whole from its tokens, and what follows is left |
| ExprGrammar.LevelSound | busybox/coreutils/expr.c:315-537 | what is parsed at a level is a tree of that level, written as the tokens consumed |
| ExprEval.WriteIsShortest | busybox/coreutils/expr.c:315-537 | no other way to write an expression at a level has fewer tokens |
| ExprEval.ShortestValue | busybox/coreutils/expr.c:522-559 | evaluating the shortest way of writing an expression consumes it all and gives its value |
| ExprEval.WrittenValue | busybox/coreutils/expr.c:522-559 | so does any other way of writing it |
| ExprEval.ValueIsWritten | busybox/coreutils/expr.c:522-559 | a command line with a value is a way of writing an expression with that value |
| ExprEval.Comparison | busybox/coreutils/expr.c:489-496 | both sides are converted when they can be, then compared |
| ExprEval.Evaluator.Eval0 | busybox/coreutils/expr.c:522-537 | the value of the longest expression that can be parsed from here, and the cursor after it; nothing when it has none |
| ExprEval.Evaluator.Eval1 | busybox/coreutils/expr.c:502-518 | the same from the level of & |
| ExprEval.Evaluator.Eval2 | busybox/coreutils/expr.c:472-498 | the same from the level of the comparisons |
| ExprEval.Evaluator.Eval3 | busybox/coreutils/expr.c:448-468 | the same from the level of + and - |
| ExprEval.Evaluator.Eval4 | busybox/coreutils/expr.c:424-444 | the same from the level of *, / and % |
| ExprEval.Evaluator.Eval5 | busybox/coreutils/expr.c:406-420 | the same from the level of : |
| ExprEval.Evaluator.Eval6 | busybox/coreutils/expr.c:341-401 | the same for keywords |
| ExprEval.Evaluator.Eval7 | busybox/coreutils/expr.c:317-337 | the same for operands and parentheses |
| ExprEval.Evaluator.Run | busybox/coreutils/expr.c:539-559 | the value of the whole command line, nothing when tokens are left over |
| Versions.OrderInjective | busybox/archival/dpkg.c:229-237 | different non-digits weigh differently |
| Versions.VersionComparePart | busybox/archival/dpkg.c:240-277 | the sign of the result is that of the lexicographic comparison of alternating text and number parts |
| Versions.CmpIsFirstDifference | busybox/archival/dpkg.c:240-277 | the first difference decides |
| Versions.CmpIsZero | busybox/archival/dpkg.c:240-277 | two versions are equal if and only if their parts are, missing ones counting as empty and zero |
| Versions.VersionCompare | busybox/archival/dpkg.c:283-334 | epochs first, then upstream versions, then revisions |
| Versions.VersionOrder | busybox/archival/dpkg.c:283-334 | the comparison is reflexive and antisymmetric in sign |
| Versions.VersionTransitive | busybox/archival/dpkg.c:283-334 | the comparison is transitive, and strict unless both sides are equal |
| Versions.TestVersion | busybox/archival/dpkg.c:336-354 | each operator holds exactly when the order says so |
| NameTables.MakeHash | busybox/archival/dpkg.c:169-186 | start and decrement from the 64-bit sum of the shifted characters |
| NameTables.ProbesDistinct | busybox/archival/dpkg.c:189-206 | with a prime size, as many probes as there are slots never hit a slot twice |
| NameTables.ProbeReaches | busybox/archival/dpkg.c:189-206 | so they reach every slot |
| NameTables.PrimeSize | busybox/archival/dpkg.c:88-88 | 16381 is prime |
| NameTables.StoredOnce | busybox/archival/dpkg.c:189-206 | a name is in the table at most once |
| NameTables.NameTable.Search | busybox/archival/dpkg.c:189-206 | ends, returns the slot of the name, and changes nothing but a free slot for a new name |
| NameTables.NameTable.SearchAll | busybox/archival/dpkg.c:189-206 | over any run of searches, with a free slot for every new name among them, two names get the same number if and only if they are equal, and old numbers stay valid; repeated and stored names need no slot |
| NameTables.NamesNeedSlots | busybox/archival/dpkg.c:189-206 | fewer free slots are never enough: a table that keeps what it has and holds all the names had a free slot for each new one |
| NameTables.ProbeEndsIff | busybox/archival/dpkg.c:189-206 | probing for a name ends if and only if the name is stored or a slot is free |
| Adler.ChecksumSplits | busybox/archival/lzop.c:555-562 | the checksum does not depend on how the data is split into calls |
| Adler.NoOverflow | busybox/archival/lzop.c:512-517 | the sums of n bytes fit 32 bits from every 16-bit start if and only if n is at most 5552; one byte more overflows even from reduced sums |
| Adler.LzoAdler32 | busybox/archival/lzop.c:510-536 | the result is that of section 8.2 of RFC 1950, which reduces after every byte; 1 for no buffer |
| Adler.Running.AddBytes | busybox/archival/lzop.c:555-562 | the running checksum of all bytes so far |

## Left out

- gzip: option parsing and file handling; the time stamp is 0, as the code has it.
- gzip: all ten header bytes are written before the window is filled; the code writes the last two after it, which the output does not show.
- gzip: the branch for 16-bit machines in fill_window, where unsigned has 16 bits, and 16-bit bit queues; the model has BUF_SIZE 32.
- gzip: match_start after a slide is kept as an integer that can be -1, where the code has an unsigned word; only differences of it are used.
- src/protocol.h: group membership (GROUP_* messages), data messages and the delivery to port observers; groups are fixed, and numbered from 0 to 255.
- src/protocol.h: threads and locks; the handling of one message is one step.
- src/clock_syncer.h: the statistics over samples and the adjustment itself; a worker's clock may be set to anything at any time.
- src/gateway.h: timing of READY and SYNC_REQ; they may be sent at any time their conditions hold.
- Barrier.BarrierHolds: does not say that GO ever comes, because every packet may be lost.
- factor: reading numbers from the command line and standard input.
- expr: regular expressions (docolon) are a parameter; exit status and printing are left out. Signed overflow, undefined in C, wraps around; the smallest number divided by -1, and its remainder, stop the program on common hardware, where the model gives the smallest number and 0.
- expr: values are passed on, not converted in place; each is used once, so the difference cannot be seen.
- dpkg: everything but names and versions; atoi is a parameter.
- NameTables.MakeHash: characters are 7-bit; with others the shifts of the original are undefined.
- lzop: the CRC-32 and everything but the checksum.
- The other BusyBox applets, the engines, shared memory, and the publish/subscribe layer.
