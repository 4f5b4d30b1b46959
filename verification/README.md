# Rufus verification

A Dafny model of the parts of Rufus whose correctness is least visible in their code, and proofs
about it. `dafny verify dfyconfig.toml` checks everything.

- **Regular expressions** (`Cregex*.dfy`, src/cregex_*.c): parser, compiler and virtual machine, and the
  pipeline that src/rufus.c runs. The parser's two-ended node buffer is proved against a recursive
  grammar, and the grammar against a printer: whatever can be written is read back as it was meant
  (`CregexPrint.dfy`). The emitted code is proved against the set of spans each tree denotes, and against
  the derivations of the tree, which say how a match comes about (`CregexDerivation.dfy`). The two-list
  machine is proved against a backtracker with first-visit pruning, whose answer is the first path in order
  of preference (`CregexPriority.dfy`), and so the preferred derivation (`CregexFirst.dfy`). Together they
  give the meaning of a run, captures included, for every pattern and every 7-bit subject.
- **Hashing** (`Hash*.dfy`, `Sha256*.dfy`, `ImageRegions.dfy`, src/hash.c): streaming contexts against
  the padded message of FIPS 180-4, the in-place SHA-256 rounds against section 6.2.2, the reader and
  the hash workers as a concurrent protocol, and the ordered list of PE regions.
- **Disks** (`Bad*.dfy`, `DriveWipe.dfy`, `SectorWriter.dfy`, `Fat32.dfy`, `PartitionLayout.dfy`,
  `SectorCache.dfy`): the bad-block and fake-capacity test, the wipe loop, the sector coalescer, FAT32
  sizing and initial image, the partition layout and the sector cache. A device is an abstract sequence
  of sectors or bytes whose calls may fail; where a call's outcome is open it is chosen anew each time. The
  scans of the bad-block test are runs of transfers (`BadBlocksScan.dfy`); the methods of `BadBlocks.dfy`
  make exactly those runs, `BadBlocksTally.dfy` says what the counters amount to, `BadBlocksRun.dfy` has the
  passes, and `BadBlocksFaults.dfy` what they miss.

`Arithmetic.dfy` holds the facts on whole multiples, rounding and powers of two that they share, and
`Wrappers.dfy` the option type.

## What the proofs found

- `node_is_anchored` ignores the lower bound of a quantifier (src/cregex_compile.c:73-74), so `(^a)?b` is
  not found in "xb". `OptionalAnchorMissed` shows it, from the text of the pattern on; `MissedExactly` says
  exactly when a search misses an occurrence, and `SearchFindsOccurrence` and `Find` that none is missed
  when the anchor is forced.
- A pattern whose last backslash escapes the terminator makes the parser read on past it
  (src/cregex_parse.c:136-138). `VerdictExactly` gives the condition on the text, in both directions, and that
  for a rejected pattern; an escaped backslash at the end is harmless (`TwoBackslashes`).
- An alternative that is empty makes the other one optional (src/cregex_parse.c:154-188), and that is greedy.
  With the empty alternative last the preference is kept (`EmptyRightKept`); with the empty one first it is
  turned round, so that `(|a)` takes an `a` although the empty alternative comes first (`EmptyLeftTurned`).
- The stamps stop a loop over the empty string, for which a greedy quantifier has no preferred derivation at
  all (`NoneBest`). `FirstDerivation` says what is reported for every tree, and that it is preferred to all
  other derivations when no unbounded quantifier stands over something that may be empty.
- For the empty pattern, and no other, the parser's buffer of 2 * strlen nodes has no room for the node that
  is written to it (src/cregex_parse.c:248-272): `ParsePattern` and `Find` state it.
- HashThread waits for its workers to exit and does not look at their exit codes (src/hash.c:2103-2107).
  A worker whose last wait timed out leaves an old digest string behind a successful end:
  `TimeoutUnnoticed` is such a run, and `SuccessWhole` says that a worker goes on to its digest exactly
  when no step of that worker failed.
- Two buffers would not be enough for the hash protocol, as the comment at src/hash.c:99-101 says:
  `TwoBuffersRace` is a run in which a worker hashes bytes that are not the file's.
- The two three-byte patterns of the TLC test (src/rufus.h:110) do not divide a block of 512 KB, so the
  blocks of the buffer differ (`TableAlike`, both directions). `FalseAlarm` is a run of writes and reads over
  a faithful device in which two blocks are written on their own after an error, read back together, and
  the second is listed as corrupted. `FaithfulExactly` says for each pattern of the tests that no run
  over a faithful device lists a block that did not fail exactly when the pattern is not one of those two.
- A short read skips the comparison of the blocks it did give (src/badblocks.c:538-543). `ShortReadMisses` is
  a run in which a wrong block is given that way and ends up neither listed nor compared; `AllCompared` says
  that every block is compared, or dead, exactly when no read is short and not empty.
- A recovery after a failed transfer ends only if the last block of its stretch can be transferred; otherwise
  the rest of the scan goes block by block (src/badblocks.c:491-503 and 535-547): `WritesRecover`, `ReadsRecover`.
- A region is refused by `efi_image_region_add` also when it surrounds an empty region of the list
  (`OverlapMeans`).
- `iso9660_readfat` moves `sec_start` before the read (src/iso.c:1789-1796): after a failed refill the same
  request is answered from what was left in the buffer, without another attempt (`StaleAfterFailure`;
  `StaleAnswer` is one with wrong bytes). `ServeRight` says which later requests are right: those that
  refill the buffer first, and those after them.
- The test for empty blocks of the wipe looks at whole words only (src/format.c:1232-1243): it is exact for
  the block sizes that are a multiple of four, and for no others (`TestExactly`).
- On a disk smaller than the backup area of a GPT the end of the last partition wraps around to a number
  past the end of the disk (src/drive.c:2375-2377): `LimitExactly`.

## Model

| member | source | states |
|---|---|---|
| `Cregex.ClassAddContains` | src/cregex.h:77-90 | adding a character to a class bitmap adds that character and no other |
| `CregexCode.FillContains` | src/cregex_compile.c:99-127 | the bitmap of a class holds exactly the characters of the ranges that its text denotes |
| `CregexSemantics.LanguageForward` | src/cregex_compile.c:129-248 | every span a tree denotes runs forward inside the subject |
| `CregexCode.CodeLength` | src/cregex_compile.c:11-51 | code generation emits exactly the counted number of instructions, wherever the code is placed |
| `CregexCode.CodeEnclosed` | src/cregex_compile.c:129-248 | every split and jump of the code stays inside it or goes to the instruction just after it |
| `CregexCode.CodeSaves` | src/cregex_compile.c:232-241 | code saves only to the two slots of each capture that it numbers |
| `CregexCopies.CodeMoves` | src/cregex_compile.c:129-248 | code placed elsewhere is the same code with its targets shifted |
| `CregexCopies.QuantifiedCopies` | src/cregex_compile.c:179-217 | every copy of a quantified body, mandatory, optional or in a loop, is the same code moved, at a stated place, and saves to the same capture slots |
| `CregexCodeCorrect.QuantifiedImplements` | src/cregex_compile.c:179-220 | unrolled copies, optional copies and the two loops run through exactly the repetitions between the bounds, empty iterations included |
| `CregexCodeCorrect.CodeImplements` | src/cregex_compile.c:129-248 | compilation preserves meaning: the paths through the code of a tree are exactly the spans the tree denotes |
| `CregexProgram.AssembleLinked` | src/cregex_compile.c:250-299 | the whole program has the estimated size, all targets inside it, and MATCH as its last instruction and nowhere else |
| `CregexProgram.SearchDecides` | src/cregex_compile.c:53-89 | a search succeeds exactly when some span of the subject matches, counted only at the start when the tree is taken to be anchored |
| `CregexProgram.SearchFindsOccurrence` | src/cregex_compile.c:250-289 | when the anchor is forced, a search succeeds exactly when the tree matches some span: leaving out the lazy prefix is sound |
| `CregexProgram.MissedExactly` | src/cregex_compile.c:53-89 | for a tree that matches somewhere, the search fails exactly when the tree is taken to be anchored and has no match at the start |
| `CregexProgram.OptionalAnchorMissed` | src/cregex_compile.c:73-74 | the pattern `(^a)?b`, as the parser reads it, matches in "xb" at 1 and is not found |
| `CregexProgram.AnchoredUnlessOptional` | src/cregex_compile.c:53-89 | the compiler recognises every forced anchor, and is right about all anchors in a pattern with nothing optional |
| `CregexProgram.SearchLeftmost` | src/cregex_vm.c:122-203 | the reported start is that of a match, the leftmost possible, and the reported end is the end of a match there |
| `CregexBacktrack.LayeredBacktrack` | src/cregex_vm.c:37-97 | a backtracking search splits into the threads one call adds at this position and the runs of those threads |
| `CregexPaths.BacktrackSound` | src/cregex_vm.c:122-203 | a match found with first-visit pruning is the end of a real path, with the slots saved along it |
| `CregexPaths.FailureDead` | src/cregex_vm.c:45-47 | pruning loses nothing: after a failed search no visited instruction has any path to a match |
| `CregexPriority.ExploreFirst` | src/cregex_vm.c:67-70 | that search gives the preferred path: every other one takes the second branch where they first part |
| `CregexPriority.PruningKeeps` | src/cregex_vm.c:45-47 | pruning by stamps gives the answer of a search that prunes only repetitions on the current path |
| `CregexPriority.FirstPath` | src/cregex_vm.c:37-97 | the captures of a run are those of the first path to MATCH, in the order of preference of greedy and lazy splits, among all paths that visit no instruction twice at one position; no match exactly when there is no such path |
| `CregexDerivation.FollowMatches` | src/cregex_compile.c:129-248 | every derivation leads over a span that the tree matches |
| `CregexDerivation.MatchFollows` | src/cregex_compile.c:129-248 | every span that a tree matches has a derivation |
| `CregexDerivation.PrefersTotal` | src/cregex_compile.c:168-218 | of two derivations from the same place exactly one is preferred, unless they are the same |
| `CregexWords.DerivationWalks` | src/cregex_compile.c:129-248 | every derivation is a path through the code, which saves to the slots what the derivation captures |
| `CregexReadBack.PathReads` | src/cregex_compile.c:129-248 | every path that leaves the code of a tree begins with the choices of a derivation of the tree |
| `CregexFirst.WordOrder` | src/cregex_compile.c:168-218 | the order of the splits on the paths of two derivations is the preference between the derivations: left before right, one pass more before one less if greedy, the other way round if lazy |
| `CregexCycles.CodePart` | src/cregex_compile.c:129-248 | the code of such a tree has no cycle that consumes nothing, wherever it is placed |
| `CregexFirst.SteadyOnce` | src/cregex_vm.c:45-47 | every derivation of a tree without loops over the empty string visits no instruction twice at one position |
| `CregexFirst.FirstDerivation` | src/cregex_vm.c:122-203 | a run reports the leftmost start and from there the preferred derivation, with the last pass of every group in its slots; preferred among those that visit no instruction twice at one position, and among all if the tree is steady |
| `CregexGreedy.QuantifierEnd` | src/cregex_compile.c:179-218 | the preferred derivation of a quantifier over single characters is the longest when it is greedy, the shortest when it is lazy |
| `CregexGreedy.ReportedEnd` | src/cregex_compile.c:193-216 | a pattern that ends in a quantifier over single characters matches, from where that begins, as far as possible when it is greedy and as little as possible when it is lazy |
| `CregexGreedy.EmptyRightKept` | src/cregex_parse.c:154-188 | folding an alternation whose second side is empty keeps its preference |
| `CregexGreedy.EmptyLeftTurned` | src/cregex_parse.c:154-188 | folding an alternation whose first side is empty turns its preference round |
| `CregexGreedy.NoneBest` | src/cregex_vm.c:45-47 | a greedy loop over something that matches the empty string has no preferred derivation |
| `CregexGroups.GroupsReported` | src/cregex_vm.c:85-95 | after a match the two slots of each group are both empty, or hold the ends of a match of the tree of that group |
| `CregexVm.AddThread` | src/cregex_vm.c:37-97 | stamps and appends exactly what the recursive closure says, with the caller's match row restored; terminates on the instructions not yet stamped, through empty loops too |
| `CregexVm.FrontierRuns` | src/cregex_vm.c:155-195 | stepping a thread list over one character is what the backtracker does with those threads |
| `CregexVm.PositionAnswer` | src/cregex_vm.c:146-195 | cutting off the threads after a match prefers exactly the match the backtracker would find first |
| `CregexVm.RunPosition` | src/cregex_vm.c:140-195 | one position moves the threads before the first match to the next list, keeps that match, and never meets an instruction a thread cannot wait at |
| `CregexVm.NextPosition` | src/cregex_vm.c:134-202 | stale stamps of a swapped list never collide with those of the new position |
| `CregexVm.Run` | src/cregex_vm.c:122-203 | returns 1 exactly when the backtracker finds a match, with its captures in the first 64 slots; all other slots, and all slots without a match, are empty |
| `CregexCompile.CompileCharClass` | src/cregex_compile.c:99-127 | re-walks the class text to the end the parser recorded and fills the bitmap of its ranges |
| `CregexCompile.Compile` | src/cregex_compile.c:129-248 | appends the code of the tree to the program in place and numbers its captures after those before |
| `CregexCompile.CompileAlternation` | src/cregex_compile.c:168-177 | emits both branches and patches the split and the jump around them |
| `CregexCompile.CompileStar` | src/cregex_compile.c:199-218 | emits the loop of a starred body with both targets patched, greedy or not |
| `CregexCompile.CompileQuantifier` | src/cregex_compile.c:179-220 | every kind of quantifier leaves its unrolled code, with the capture count reset between copies |
| `CregexCompile.CompileNode` | src/cregex_compile.c:250-317 | fills an array of exactly the estimated size with the assembled program |
| `CregexGrammar.FoldLanguage` | src/cregex_parse.c:154-188 | folding alternatives with an empty side into optional parts keeps the language |
| `CregexGrammar.ParseWellFormed` | src/cregex_parse.c:128-246 | every accepted pattern gives a tree the compiler can take |
| `CregexGrammar.VerdictExactly` | src/cregex_parse.c:128-246 | the parser reads past the terminator, rejects a pattern or accepts it exactly as a walk over the text says, which knows only escapes, classes and open groups |
| `CregexGrammar.OptionalAnchorParses` | src/cregex_parse.c:128-246 | the grammar reads `(^a)?b` as the tree with an optional group |
| `CregexPrint.RoundTrip` | src/cregex_parse.c:128-246 | the text of every pattern that can be written is read back as its tree: characters, escapes, wildcards, anchors, classes, groups, alternatives, and every quantifier with its bounds and its preference |
| `CregexPrint.SetMeans` | src/cregex_parse.c:53-87 | the node of a class denotes the characters and ranges that were written |
| `CregexPrint.IntervalIs` | src/cregex_parse.c:89-126 | what is taken as an interval is one number, a number and a comma, or two numbers in order of which the first can be missing, and a brace |
| `CregexPrint.IntervalTaken` | src/cregex_parse.c:89-126 | every text of that form is taken as an interval, with its bounds |
| `CregexParse.ParseContext.Consume` | src/cregex_parse.c:29-33 | moving the top of the stack to the output keeps the trees below it and what the moved node denotes |
| `CregexParse.ParseContext.Concatenate` | src/cregex_parse.c:35-51 | the nodes above the bottom become the concatenation of their trees, in order |
| `CregexParse.ParseContext.ScanClass` | src/cregex_parse.c:53-87 | finds the end of a class, or its error, as the reference scan does |
| `CregexParse.ParseContext.ParseInterval` | src/cregex_parse.c:89-126 | takes exactly the well-formed intervals and otherwise leaves the position where it was |
| `CregexParse.ParseContext.FoldTop` | src/cregex_parse.c:154-188 | the two topmost trees become their folded alternation, in the room left |
| `CregexParse.ParseContext.ParseItem` | src/cregex_parse.c:133-224 | one character, escape, wildcard, anchor or quantifier changes the trees on the stack as in the grammar |
| `CregexParse.ParseContext.Parse` | src/cregex_parse.c:128-246 | leaves the folded tree of the reference parse on the stack, or its error, with stack and output never meeting |
| `CregexParse.ParsePattern` | src/cregex_parse.c:248-281 | 2 * strlen nodes are enough for every pattern but the empty one, for which the buffer overflows; the root is the folded tree of the grammar |
| `CregexEngine.EngineFinds` | src/rufus.c:1550-1561 | for every accepted pattern, a search of its folded tree succeeds exactly when the pattern occurs, and reports a leftmost match |
| `CregexEngine.Find` | src/rufus.c:1550-1561 | parse, compile and run end to end: 1 exactly when the pattern is hit, and exactly when it occurs if its anchors are forced; the slots are those of the preferred path, of the preferred derivation of the folded tree, and begin with the span of a leftmost match; empty slots otherwise |
| `HashStream.FoldAppend` | src/hash.c:1195-1245 | folding a message in two parts, the first of whole blocks, is folding it whole |
| `HashStream.ZeroCountLeast` | src/hash.c:1360-1443 | the number of zero bytes is the least that leaves room for exactly the length in the last block |
| `HashStream.CounterRest` | src/hash.c:1195-1279 | the 64-bit byte counter says how full the buffer is even after it has wrapped around |
| `HashStream.Context.Write` | src/hash.c:1143-1279 | a write of any size extends the message the context holds by its data, in bulk or block by block |
| `HashStream.Context.PadZeros` | src/hash.c:1360-1443 | the padding loop fills up to the length field, through one more block when the field does not fit |
| `HashStream.Context.PutLength` | src/hash.c:1360-1443 | the bits of the length are stored most significant byte first, from two 64-bit halves for SHA-512 |
| `HashStream.Context.Final` | src/hash.c:1317-1443 | the state ends as the fold of the block function over the padded message of sections 5.1.1 and 5.1.2 of FIPS 180-4 |
| `HashStream.HashChunks` | src/hash.c:1195-1443 | however a message is cut into writes, the result is the digest of the message |
| `Sha256.OpsAgree` | src/hash.c:665-669 | the nested rotations and rewritten selections are the six functions of section 4.1.2 of FIPS 180-4 |
| `Sha256.LoadBlock` | src/hash.c:686-699 | the bytes loaded in the order of the machine and swapped are the sixteen big-endian words of the block |
| `Sha256Rounds.NextWord` | src/hash.c:670-671 | the circular buffer of 16 words gives the word of the 64-word schedule, in place |
| `Sha256Rounds.CodeRound` | src/hash.c:672-675 | changing two variables and rotating the roles of eight is a round with shifting registers |
| `Sha256Rounds.AllRounds` | src/hash.c:676-707 | the loop of eight-round groups is the 64 rounds of section 6.2.2 |
| `Sha256.Transform` | src/hash.c:652-723 | for every block of 64 bytes and every state, the low 32 bits of the 64-bit state words are the hash value of section 6.2.2 |
| `HashProtocol.StepInv` | src/hash.c:1967-2107 | every step of the reader, a worker or the read in flight keeps the invariant, failures and aborts included |
| `HashProtocol.NoOverwrite` | src/hash.c:2059-2101 | in every interleaving no read in flight targets the buffer being hashed |
| `HashProtocol.InOrder` | src/hash.c:1978-1987 | in every interleaving each worker has absorbed the first chunks read, each once and in order, and the chunks are the file so far |
| `HashProtocol.SuccessWhole` | src/hash.c:2103-2119 | at a successful end every worker has absorbed the whole file, and has gone on to its digest exactly when none of its steps failed |
| `HashProtocol.SuccessDigest` | src/hash.c:2103-2119 | a context that is given the chunks of a finished worker, one write each, ends with the digest of the whole file |
| `HashProgress.NoDeadlock` | src/hash.c:2062-2107 | unless something failed, somebody can move until the reader has succeeded |
| `HashProgress.RankStep` | src/hash.c:1967-2107 | every step of work uses up some of a bounded amount and no other step adds to it |
| `HashProgress.EveryRunEnds` | src/hash.c:2059-2119 | every run has a bounded number of steps, and a run without failures ends in success with every worker at the end of the file |
| `HashProgress.TimeoutUnnoticed` | src/hash.c:2103-2107 | a run in which a worker times out, the reader succeeds and no digest was produced |
| `HashProgress.TwoBuffersRace` | src/hash.c:99-101 | with two buffers, a run in which a worker hashes bytes that are not the file's |
| `ImageRegions.Regions.Add` | src/hash.c:1606-1648 | a checked region is refused exactly when the list is full, the bounds are reversed or it overlaps one of the list; otherwise the list stays ordered and gains it |
| `ImageRegions.OverlapMeans` | src/hash.c:1620-1640 | a non-empty region overlaps another when they share a byte, or when it surrounds an empty one |
| `ImageRegions.OrderedUnique` | src/hash.c:1594-1604 | a multiset of regions has only one list in address order |
| `ImageRegions.HashRegions` | src/hash.c:1850-1854 | the digest is that of the bytes of the regions in address order, whatever the order of insertion |
| `BadList.SortedUnique` | src/badblocks.c:95-139 | a set of blocks has only one strictly sorted list |
| `BadList.List.Add` | src/badblocks.c:95-139 | the list stays strictly sorted and gains the block once, growing when it is full |
| `BadList.List.Find` | src/badblocks.c:150-179 | binary search agrees with membership and gives the place |
| `BadBlocksPattern.SplitPattern` | src/badblocks.c:344-351 | the bytes of a pattern without leading zeros, zero giving one byte |
| `BadBlocksPattern.PatternFill` | src/badblocks.c:329-361 | the buffer holds the digits of the pattern from the most significant down, over and over; for the all-ones pattern any bytes |
| `BadBlocksPattern.TableAlike` | src/rufus.h:104-111 | the blocks of the buffer are alike for every pattern of the tests but the two of three bytes |
| `BadBlocksPattern.StampInjective` | src/badblocks.c:479-486 | blocks stamped with different numbers differ |
| `BadBlocksContents.StampNumbers` | src/badblocks.c:479-486 | stamping turns every block of the buffer into the contents for its block number, whatever was stamped before |
| `BadBlocks.Test.Report` | src/badblocks.c:254-287 | the list gains the block; a new block is counted under its own kind and no other, so that each counter is the number of blocks first reported for its kind, and the count their sum |
| `BadBlocks.Test.WriteStep` | src/badblocks.c:465-503 | an iteration makes the next transfer of a run of writes and moves on as the run says: by blocks, or by the size of the transfer, with a dead block listed |
| `BadBlocks.Test.WriteScan` | src/badblocks.c:462-503 | terminates; the transfers made are a run of writes that ends at the last block when the scan finishes, and a complete device then holds all of them; the write errors counted are the new blocks that failed alone, and no other counter moves |
| `BadBlocks.Test.ReadStep` | src/badblocks.c:514-560 | an iteration makes the next transfer of a run of reads, and lists exactly the blocks of a full transfer that differ from the buffer, unless the block number reaches the limit |
| `BadBlocks.Test.ReadScan` | src/badblocks.c:505-560 | terminates; the transfers made are a run of reads, with the blocks listed that the run finds different; the read errors counted are the new blocks that failed alone, the corruptions the new blocks that differ |
| `BadBlocksTally.ReadsFind` | src/badblocks.c:548-556 | the blocks found different by a run of reads are those of its full transfers that differ from the buffer |
| `BadBlocksTally.ReadingMore` | src/badblocks.c:514-560 | what one more read adds to the counters, wherever it comes in the run |
| `BadBlocksTally.FirstPassTally` | src/badblocks.c:279-285 | after a first pass: a write error for each block that could not be written alone, a read error for each other block that could not be read alone, a corruption for each other block that was compared and differs |
| `BadBlocksScan.WritesLeave` | src/badblocks.c:465-503 | a run of writes leaves every block it passed dead or last written with contents of the pass, and keeps what was listed |
| `BadBlocksScan.ReadsPass` | src/badblocks.c:514-560 | the blocks passed are those compared, those dead and those given by short reads, and no block is two of these |
| `BadBlocksScan.AllCompared` | src/badblocks.c:538-543 | all blocks a run of reads passes are compared or dead exactly when no read of it is short and not empty |
| `BadBlocksScan.ReadsAccount` | src/badblocks.c:514-560 | each block a run of reads passes is listed, given by a short read, or last read with contents of the pass; each newly found different was read with doubtful contents |
| `BadBlocksScan.FaithfulReads` | src/badblocks.c:538-556 | when what the buffer gives is never doubted, reads that agree with what was written find no block different that is not dead |
| `BadBlocksScan.CompleteWrites` | src/badblocks.c:462-503 | on a device without failures a run of writes leaves the cells with the whole pass so far |
| `BadBlocksScan.CompleteReads` | src/badblocks.c:505-560 | on a device without failures a run of reads finds exactly the blocks given back wrong so far, and was below the threshold one transfer before |
| `BadBlocksRun.LatestIs` | src/badblocks.c:449-486 | on a device of m blocks a block is overwritten exactly when it is more than m blocks from the end |
| `BadBlocksRun.WrongOverwritten` | src/badblocks.c:479-503 | after a stamped pass the blocks given back wrong are exactly the overwritten ones; none on an honest device, stamped or not |
| `BadBlocksRun.Pass` | src/badblocks.c:449-564 | when a pass finishes every block is accounted for, all compared or dead exactly when no read was short; each counter moves as the transfers of the pass tell; a faithful device has only dead blocks listed if the place in the buffer does not matter; a first stamped pass lists exactly the first min(last - m, 256) blocks of a device of m blocks |
| `BadBlocksRun.TestRw` | src/badblocks.c:407-567 | in every run the count is the size of the list and the sum of the counters, each counter is what the transfers of all passes tell, and the list is the blocks that failed a transfer or a comparison; after a finished run every block is accounted for by the last pass; honest devices have none listed, fake ones their overwritten blocks up to the threshold |
| `BadBlocksFaults.FalseAlarm` | src/badblocks.c:487-560 | a run of a pass over a faithful device that lists a block as corrupted, whenever the first two blocks of the buffer differ |
| `BadBlocksFaults.FaithfulExactly` | src/rufus.h:104-111 | no run of a first pass over a faithful device lists a block that did not fail a transfer, exactly for the patterns other than the two of three bytes |
| `BadBlocksFaults.DoubtExactly` | src/badblocks.c:544-556 | contents that come from the buffer are never doubted exactly for the patterns other than the two of three bytes |
| `BadBlocksFaults.ShortReadMisses` | src/badblocks.c:538-543 | a run of reads in which a wrong block given by a short read is neither listed nor compared |
| `BadBlocksFaults.WritesRecover` | src/badblocks.c:491-503 | in a run of writes a recovery goes block by block to its end, and ends there exactly when the block before it can be written; otherwise it lasts for the rest of the scan |
| `BadBlocksFaults.ReadsRecover` | src/badblocks.c:535-547 | the same of a run of reads |
| `DriveWipe.IsEmpty` | src/format.c:1232-1243 | the word-wise test finds a block empty exactly when its whole words are all zeros or all ones |
| `DriveWipe.TestExactly` | src/format.c:1232-1243 | the test tells all blocks of a size apart rightly exactly when the size is a multiple of four |
| `DriveWipe.WriteBlock` | src/format.c:1255-1279 | with retries, a block is written whole at its place or the wipe fails, and nothing outside it changes |
| `DriveWipe.NextSize` | src/format.c:1208-1214 | the next block does not pass the last sector of the target and is whole sectors |
| `DriveWipe.ZeroDrive` | src/format.c:1170-1281 | when it completes after a successful rewind, every byte up to the target is zero, or in fast mode as it was or of a block of ones that was written, and with sectors of whole words every block is all zeros or all ones; nothing beyond the last sector changes; it completes unless a call fails |
| `SectorWriter.Writer.HoldsPrefix` | src/format.c:1093-1149 | the device holds the longest whole-sector prefix of the input, the buffer the rest |
| `SectorWriter.Writer.FillSector` | src/format.c:1112-1125 | a partial sector is filled from the data and written when it is full |
| `SectorWriter.Writer.Write` | src/format.c:1093-1149 | while writes succeed a call takes all its data and the split between device and buffer is kept; every write is whole sectors |
| `SectorWriter.WriteAll` | src/format.c:1093-1149 | over any sequence of calls the device ends up with exactly the longest whole-sector prefix |
| `Fat32.GeometrySound` | src/format_fat32.c:307-378 | the table has an entry for every cluster and two more, and is the smallest that is sure to; at least 32 reserved sectors that fit 16 bits, and a data area on a megabyte |
| `Fat32.FatLeast` | src/format_fat32.c:134-146 | the table size is the least for which the entries cover the clusters of the sectors that are left |
| `Fat32.FatBounds` | src/format_fat32.c:134-146 | the size is rounded up, and the table is a small part of the volume |
| `Fat32.FatNeverShort` | src/format_fat32.c:393-400 | the check that the table is large enough never fails |
| `Fat32.FreeEntriesAre` | src/format_fat32.c:410-412 | the zero entries of an initial table are all clusters but the root's |
| `Fat32.Volume.ClearArea` | src/format_fat32.c:415-434 | the system area and the root directory are cleared, without writing outside the volume |
| `Fat32.Format` | src/format_fat32.c:376-449 | refused exactly outside the supported sizes; otherwise both tables are equal and initial, the backups are in place and the free count is the number of zero entries |
| `PartitionLayout.NextOffsetIs` | src/drive.c:2316-2322 | rounding up to a track and down to a cluster does not go below an end that is whole clusters |
| `PartitionLayout.LimitExactly` | src/drive.c:2375-2377 | the end of the partitions is where the GPT backup starts exactly when the disk has room for it, and is otherwise past the end of the disk |
| `PartitionLayout.LargestIs` | src/missing.h:35 | rounding down gives the largest multiple, and only that |
| `PartitionLayout.Layout.PlaceBack` | src/drive.c:2374-2382 | the extra partitions are placed downwards from the end, on tracks, in order and disjoint, if they fit |
| `PartitionLayout.SizeMain` | src/drive.c:2384-2394 | the main partition is the largest whole number of tracks in the room, and of clusters in that when clusters are whole sectors |
| `PartitionLayout.Create` | src/drive.c:2252-2398 | the partitions are those asked for, in order, disjoint and before the backup area; those up to the main one start on the next track, rounded down to a cluster, those after it on the last track they fit before, and the main one is as large as alignment allows; with a cluster that divides 1 MB it fails only for lack of room, by a stated bound |
| `SectorCache.SectorFits` | src/iso.c:1782-1785 | a sector size that divides the buffer divides an ISO block or is a multiple of it |
| `SectorCache.StartIs` | src/iso.c:1789-1791 | a refill starts on the ISO block in which the sector begins, and the sector lies whole in the buffer |
| `SectorCache.Cache.ReadSector` | src/iso.c:1778-1800 | a request does what the step says, with the reply the ISO gave if it was asked; unless the last read of the ISO failed the sector is given as the image holds it |
| `SectorCache.ReadAll` | src/iso.c:1778-1800 | in every sequence of requests each one is answered as by reading the image directly, unless the last read of the ISO by then had failed |
| `SectorCache.StaleAfterFailure` | src/iso.c:1787-1796 | after a failed refill the same request is answered with what was left in the buffer at its place, whatever the ISO would have given |
| `SectorCache.StaleAnswer` | src/iso.c:1787-1796 | a request that fails and is repeated gets bytes that are not those of the image |
| `SectorCache.ServeRight` | src/iso.c:1787-1798 | a request is right when it refills the buffer first, whatever happened before, or when the buffer is coherent; the buffer is coherent afterwards |

## Left out

- Windows calls, handles, mounting, device enumeration, the registry and the user interface.
- Reading one byte past the terminator of a subject, which the machine does: the byte is an arbitrary parameter. Characters above 127 are not modelled.
- The widths of `int` in the regular-expression engine: bounds of intervals, stamps and lengths are unbounded.
- Failed allocations, in the engine and in the list of bad blocks.
- The SHA instructions of x86 processors and the SHA-1 and SHA-512 block functions: any block function is allowed in the streaming theorem.
- MD5, whose write function copies the space left in its block rather than the bytes it was given (src/hash.c:1295).
- The conversion of state words into digest bytes and of digest bytes into text.
- The table of SHA-256 constants, which is a parameter of the rounds.
- The creation of the hash threads and events, before which nothing is shared.
- PE headers, certificates and revocation lists: the regions to be hashed are parameters.
- Random numbers: the bytes of the random pattern, which no test uses, are arbitrary, and random offsets are parameters.
- The retry delays of the wipe.
- The write of a disk image, compressed or not, beyond `sector_write`.
- The boot sector's fields and the boot record of FAT32; the volume is its sectors as 32-bit words.
- Partition types and names.
- `ToggleEsp`, `is_in_md5sum`, ext2 and ext3 formatting, ISO and UDF extraction.
- CregexPrint.RoundTrip: does not cover the spellings that the printer does not use, a hyphen after a range in a class and a brace that opens no interval, because their reading depends on what surrounds them.
