# STARBUG bundle safety, in Dafny

STARBUG packs two to four RISC-V instructions into a bundle by putting a hint in front of them. The hint is encoded as `c.li x0, n`, an architectural NOP. The hardware may honour it and issue the next `n` instructions in parallel, with no interlock, or decline it and run the same bytes one at a time. The repository's central claim is that every emitted bundle is right both ways. This project models the code the claim rests on and proves it, for every program, state and choice of honoured hints.

## What is modelled

- **The decoder** (`Isa.dfy`, after `tools/starbug_isa.py`): class, reads and writes of each 16- and 32-bit word, and the hint encoding. `Rv32.dfy` and `Rv32Exec.dfy` state RV32IMAFC separately, from the formats and operations of the RISC-V Unprivileged ISA (20191213), and prove the decoder sound against it and how it decodes the words the ISA leaves undefined.
- **The hardware contract** (`Machine.dfy`, `Bundles.dfy`, `Tight.dfy`, `Split.dfy`, after `docs/HARDWARE_CONTRACT.md`): lanes read the state before the bundle and write back together, either writer may win a doubly written register, worker lanes get lane 0's pc, and a memory operation in a worker lane is dropped. What an instruction computes is a parameter, `Semantics`, held only to the decoder's read and write sets (`Framed`), so theorems hold for any arithmetic, floating point or memory.
- **The checker** (`Checker.dfy`, `Diagnostics.dfy`, `ErrorLists.dfy`, `Summary.dfy`, `Report.dfy`, `Gaps.dfy`, `Example.dfy`, after `tools/starbug_bundle_check.py`): `check_bundle` and `analyse` update bundle objects and are proved against functions giving the exact error and warning lists, and these lists against the faults they name, spelled out in lanes, registers and bytes; `summarise` is proved against counts over the bundles found. `Example.dfy` holds listings and a block that meet the hypotheses of the main theorems or show where a claim stops.
- **Two machines** (`Run.dfy`, `Exact.dfy`): a stock core, one instruction per step, and the STARBUG machine, which at each hint of length 1 to 4 may do either thing. If an honoured bundle's members are missing or not adjacent, anything may happen. `Exact.dfy` gives the condition on a program's hints under which the two always agree, and shows it is necessary.
- **The packetizer** (`VliwConfig.dfy`, `Packets.dfy`, `Packetizer.dfy`, `Packing.dfy`, `Sharing.dfy`, after `StarbugVLIWPacketizer.cpp` and `StarbugVLIWConfig.cpp`): a class with the pass's mutable packet, lanes and running sets, proved to produce the maximal munch of the block; `Sharing.dfy` says from flags, operands and names alone what is packed and hinted. `Lowering.dfy`, `RoundTrip.dfy`, `Emitted.dfy`, `BlockRun.dfy` and `Unhinted.dfy` take its output through layout, re-parsing and execution; `Relocation.dfy` and `Function.dfy` do so for whole functions, whose branches are relocated, and `Loop.dfy` is one.
- **The accounting tools** (`Counters.dfy`, `Profile.dfy`, `Visits.dfy`, `Conservation.dfy`, `Breakdown.dfy`, `RunProfile.dfy`, `Cycles.dfy`, `Straddle.dfy`, after `tools/starbug_profile.py` and `tools/starbug_straddle.py`): their loops, each figure as a sum over lines or bundles, and what the numbers mean over whole runs of the two machines.
- **The CRC-32 kernel** (`Crc.dfy`, `CrcKernel.dfy`, after `bench/kernels/crc32.c`): the table-driven loop against the bit-serial definition of section 8 of RFC 1952, the shift as multiplication modulo the generator, and known answers.

## Where the code falls short of the claim

- A report with no unsafe bundle is not enough. The checker swallows a hint that stands inside another bundle, does not look at addresses, and skips lane 0 in its legality test although workers commit when a lane-0 branch is taken. `Gaps.NestedHintDiverges` and `Gaps.BranchInLane0Diverges` are listings it passes and the hardware gets wrong. For every listing, `Report.ListingRefinesExactly` proves that, for every semantics within the decoder's read and write sets, whatever is honoured is right if and only if every hint of length 1 to 4, nested or not, has adjacent members, arithmetic or NOPs behind lane 0, no RAW, WAW only between equal words, and nothing but NOPs behind a transfer, SYSTEM or UNKNOWN head. `Report.CleanReportExact` says what of this is left to test when the report is clean (`NothingOpen`). On RV32IMAFC itself these rules suffice (`Report.CleanReportRefines`) and are not all needed: `Example.CopyIsHarmless` breaks the RAW rule where the value read is the value written. The packetizer's output meets more than the rules (`Emitted.PacketizedProgramIsSafe`).
- The checker is stricter than it need be in three cases, and `Report.NeedlessErrorsExact` proves that there are no others: where every hint is right for every semantics, the report has an unsafe bundle if and only if a hint is longer than four, which the hardware reads as a NOP (`Example.LongHintIsHarmless`), two members have the same word and destination (`Example.TwinsAreHarmless`), or an AUIPC behind lane 0 has destination x0 (`Example.IdlePcRelIsHarmless`).
- The decoder gives some reserved and illegal encodings an ordinary class; `Rv32Exec.ReservedShiftIsUnframed` is a reserved OP-IMM shift classed `ALU`. `Rv32Exec.DecoderFrameExact` proves that the decoded read and write sets hold on every machine if and only if the word is defined or classed SYSTEM or UNKNOWN, and `Report.ListingFramedExactly` lifts this to listings: the hypothesis `Defined` is exact.
- The profile's payload plus hints is not always the number of instructions executed. `RunProfile.ProfileExact` gives the difference for every listing and complete run: it misses what enters a safe bundle other than through its hint and counts too often what leaves one before its end, each weighted with the members from there on. `Example.SideEntryFallsShort` jumps onto a member: three instructions run, one is accounted for. `Example.ExitOverCounts` takes the branch that heads a bundle the checker passes: two run, three are accounted for. Where members are adjacent and no bundle is headed by a transfer, only the first can happen (`RunProfile.CompleteRunProfile`).
- `docs/HARDWARE_CONTRACT.md` section 4.1 says the packetizer permutes packets and that its hint gate needs only RAW and WAW. The code here never permutes and refuses WAR as well. The model follows the code; `Lowering.PacketMayBePermuted` proves the permutation the document wants would be sound.
- With one lane every packet is full, so the pass puts a hint before every packetizable instruction even with single-instruction hints off (`Example.OneLaneHintsSingles`). `Emitted.SingleHintsExactly` proves that this happens on one lane and on no other number.

## Model

| member | source | states |
|---|---|---|
| Isa.HintDecodesAsNop | tools/starbug_isa.py:102-123 | A hint decodes as a two-byte ALU instruction that reads and writes no register, so it is a NOP to every other part of the tools |
| Isa.HintLengthExact | tools/starbug_isa.py:102-123 | A compressed word is a hint of length n if and only if n is from 1 to 63 and the word is `c.li x0` with raw six-bit immediate n |
| Isa.HintRoundTrip | llvm-overlay/llvm-snippets/StarbugVLIWAsmPrinterSnippet.cpp:5-14 | The word printed for a hint of length 1 to 31 is a compressed word that `hint_length` reads back as that length |
| Rv32.DecodeExact | tools/starbug_isa.py:181-224 | For every defined encoding the decoder's class is that of the instruction the ISA defines, and unless the class is SYSTEM so are its reads and writes, x0 left out |
| Rv32.PrivilegedCovered | tools/starbug_isa.py:208-211 | For SYSTEM and fence encodings the decoder names every register the instruction reads or writes, and one too many if and only if a register field that names none is not zero |
| Rv32.ReservedDecodesAlike | tools/starbug_isa.py:181-224 | Apart from the register fields the decoder looks at the opcode, in OP at whether funct7 is 1 and in OP-FP at funct5, so a reserved word decodes like a defined neighbour |
| Rv32.UnknownExact | tools/starbug_isa.py:181-318 | Exactly which words, defined or not, are classed UNKNOWN and which SYSTEM |
| Rv32Exec.ExecShape | tools/starbug_isa.py:73-80 | Executing an instruction that is not privileged changes only its destinations, and only the classes entitled to it change memory, flags, the reservation or the pc |
| Rv32Exec.DecoderFrameSound | tools/starbug_isa.py:236-318 | Decoder frame soundness: RV32IMAFC on every defined word stays inside the decoded read and write sets |
| Rv32Exec.DecoderFrameExact | tools/starbug_isa.py:181-318 | The decoded sets hold of a word on every machine if and only if the word is defined or classed SYSTEM or UNKNOWN |
| Rv32Exec.ReservedShiftIsUnframed | tools/starbug_isa.py:203-204 | A reserved OP-IMM shift is decoded as ALU, and on some machine does not stay inside those sets |
| Machine.SequentialIsWriteBack | docs/HARDWARE_CONTRACT.md:114-129 | Running the members in order performs exactly the simultaneous write-back, flags and memory included |
| Machine.OneBundleSound | tools/starbug_bundle_check.py:133-185 | A bundle with arithmetic or NOPs behind lane 0, no RAW and WAW only between equal instructions, whose lane 0 does not transfer control, has exactly one parallel outcome, and it is the sequential one, WAR pairs allowed |
| Bundles.Lane0TransferExact | docs/paper/03-compiler.md:342-346 | A bundle headed by a branch or jump agrees with a stock core if and only if the transfer falls through or the workers change nothing |
| Bundles.SubsequenceAccepted | docs/paper/03-compiler.md:201-208 | Any order-preserving selection of an accepted bundle's members is itself accepted |
| Bundles.SplitSound | docs/paper/03-compiler.md:196-208 | Cutting an accepted bundle in two, each part honoured, ends in the state of the whole bundle; the program around it is `Split`'s matter |
| Split.SplitIsSafe | docs/paper/03-compiler.md:196-208 | Cutting a bundle of a safe listing in two leaves every hint of the listing safe, the two parts and the later ones two bytes on included |
| Split.SplitAgrees | docs/paper/03-compiler.md:196-208 | For RV32IMAFC code that keeps no address: whatever is honoured of either part, the cut listing gives the registers and memory of the whole one |
| Bundles.PermutationSound | docs/HARDWARE_CONTRACT.md:144-149 | Every permutation of a fully independent packet runs sequentially to the same state |
| Tight.RawIsFatal | docs/HARDWARE_CONTRACT.md:123-124 | A RAW pair makes the hardware reach, for some instruction semantics within the frames, a state that running in order does not |
| Tight.WawIsFatal | docs/HARDWARE_CONTRACT.md:125-126 | So does a WAW pair of different instructions |
| Tight.MemoryInWorkerIsFatal | docs/HARDWARE_CONTRACT.md:58-60 | So does a memory operation in a worker lane |
| Tight.PcRelInWorkerIsFatal | docs/HARDWARE_CONTRACT.md:69 | So does an AUIPC that writes a register in a worker lane, if it is the last such, through the shared pc alone |
| Tight.ControlInWorkerIsFatal | docs/HARDWARE_CONTRACT.md:55-68 | So does a transfer or system instruction in a worker lane |
| Tight.ControlHeadIsFatal | tools/starbug_bundle_check.py:133-137 | So does a transfer or system instruction in lane 0 beside a worker that is not a NOP |
| Tight.RulesAreExact | docs/HARDWARE_CONTRACT.md:112-134 | For adjacent members, any number, equal words decoding alike: parallel issue is right for every semantics within the frames if and only if arithmetic or NOPs stand behind lane 0, no pair is RAW, WAW pairs are equal words, and only NOPs stand behind a transfer or system head |
| Tight.CheckerIsExact | tools/starbug_bundle_check.py:133-185 | A bundle the checker accepts is right for every semantics if and only if lane 0 holds no transfer or system instruction or the workers are NOPs; and one that is right for every semantics is accepted if and only if it has at most four members, no two equal words share a destination and no worker is an AUIPC |
| Checker.CheckLanes | tools/starbug_bundle_check.py:133-142 | Appends one error for each lane-0-only member behind lane 0, in order |
| Checker.CheckLsu | tools/starbug_bundle_check.py:144-154 | Appends the shared-LSU error: several memory operations, or one outside lane 0 |
| Checker.CheckPairs | tools/starbug_bundle_check.py:160-185 | Appends the RAW and WAW errors and the WAR warnings of all ordered pairs, in order |
| Checker.CheckBundle | tools/starbug_bundle_check.py:112-194 | Appends the error and the warning list of the specification, which `ErrorLists` determines completely |
| Checker.SafeIffAccepted | tools/starbug_bundle_check.py:112-185 | The error list is empty if and only if the length is at most four, all members are there, workers hold worker classes and no pair is RAW or WAW; the LSU rules add nothing |
| Diagnostics.ErrorsExact | tools/starbug_bundle_check.py:133-176 | Past the early returns, a RAW, WAW or lane error naming given lanes is reported if and only if those lanes have that fault |
| Diagnostics.MemoryErrorsExact | tools/starbug_bundle_check.py:144-154 | With several memory operations exactly the list of their lanes is reported, with one outside lane 0 that lane, and otherwise nothing |
| Diagnostics.WarningsExact | tools/starbug_bundle_check.py:177-194 | A WAR warning is given if and only if the pair is anti-dependent, and the cache-line warning if and only if some byte of a member is not in the hint's line; it names the hint and the last byte of all members |
| Diagnostics.StraddlesIsByte | tools/starbug_bundle_check.py:187-194 | For members behind the hint in order, the quotient test holds if and only if some byte of a member is outside the hint's cache line |
| Diagnostics.StraddlesIsBoundary | tools/starbug_straddle.py:32-35 | That is so if and only if a cache line starts behind the hint's first byte and not behind every byte of the members |
| ErrorLists.ErrorListIs | tools/starbug_bundle_check.py:112-176 | The error list is the one list that holds each error called for, told from lengths, classes and registers alone, exactly once: lanes, then memory, then pairs in order, RAW before WAW; too long and truncated bundles have that one error |
| ErrorLists.WarningListIs | tools/starbug_bundle_check.py:177-194 | For members in order the warning list is the one list that holds each anti-dependent pair once, in order, and last the cache-line warning, if a byte is in another line |
| Checker.TakeMembers | tools/starbug_bundle_check.py:211-218 | Decodes the members behind a hint, up to the end of the stream, and covers exactly their indices |
| Checker.MakeBundle | tools/starbug_bundle_check.py:211-225 | Builds the checked bundle for a hint and the index where the scan goes on |
| Checker.Analyse | tools/starbug_bundle_check.py:197-227 | Returns one checked object per bundle of the scan, in order, and the covered indices |
| Checker.FoundSpelled | tools/starbug_bundle_check.py:204-227 | Each bundle has the address, function and length of its hint's line, which is two bytes long, and the words of the next lines decoded as members, that many or as many as there are |
| Checker.ScanPartitions | tools/starbug_bundle_check.py:204-227 | Bundles are disjoint, increasing and taken from the stream; each two-byte hint heads a bundle or lies inside one, never both |
| Checker.CleanHintsAreWhole | tools/starbug_bundle_check.py:197-227 | If no bundle is unsafe, every hint outside a bundle has length 1 to 4, all its members, and is accepted |
| Checker.EveryHintJudgedIffNotNested | tools/starbug_bundle_check.py:214-225 | Every hint is judged if and only if no hint stands inside another bundle |
| Summary.Summarise | tools/starbug_bundle_check.py:230-268 | Each total is the number of bundles with a stated property, or a sum of sizes over the safe ones, and each histogram entry a count of bundles; static ILP times issue cycles is the payload and coverage times payload is a hundred times the bundled instructions, and each is zero where there is nothing to divide by |
| Summary.StaticAccounting | tools/starbug_bundle_check.py:245-268 | In any report with those figures the bundled instructions never exceed the payload, the payload is between one and four times the issue cycles, so static ILP is in [1, 4], and coverage is in [0, 100] |
| Summary.LanesFillFromTheFront | tools/starbug_bundle_check.py:241-242 | Lane counts do not increase with the lane and vanish from lane 4 on |
| Summary.LanesSumToBundled | tools/starbug_bundle_check.py:233-242 | The lane counts add up to the bundled instructions |
| Summary.ClassesSumToLane | tools/starbug_bundle_check.py:241-243 | Each lane's class mix adds up to its lane count |
| Run.HonourRefines | docs/HARDWARE_CONTRACT.md:136-149 | Honouring a safe hint of length n ends where n+1 steps of the stock core end, always somewhere and nowhere else |
| Run.StepRefines | docs/paper/01-claim.md:15-23 | Every step of the STARBUG machine on a safe program is between one and five stock steps |
| Run.RunRefines | docs/paper/01-claim.md:15-23 | Whole-run refinement: whatever is honoured, each state reached is one the stock core reaches, in at least as many steps |
| Run.HaltingRunsAgree | docs/paper/01-claim.md:10-23 | If the stock core halts, no STARBUG run is longer, each can be completed to the same final state, and each halted one is in it |
| Exact.RefinesExactly | docs/paper/01-claim.md:15-23 | For every program: whatever is honoured, each step is stock steps, for every semantics within the frames, if and only if every hint of length 1 to 4 has adjacent members that obey the rules |
| Exact.ExactRunsAgree | docs/paper/01-claim.md:10-23 | Halting runs under that condition: no STARBUG run is longer, each can be completed to the stock core's final state, and each halted one is in it |
| Report.FormsExactly | docs/HARDWARE_CONTRACT.md:30-45 | In a listing the hardware forms bundles at the four encodings of `c.li x0, 1` to `c.li x0, 4` and nowhere else, and takes the immediate as the length |
| Report.ListingRefinesExactly | tools/starbug_bundle_check.py:197-227 | For every well-formed listing: the hardware is right for every semantics within the decoder's read and write sets if and only if every hint, judged or swallowed, meets the rules |
| Report.CleanReportExact | tools/starbug_bundle_check.py:112-227 | For a listing without unsafe bundles: the hardware is right for every semantics within the decoder's read and write sets if and only if members are adjacent, only NOPs stand behind a transfer or system head, and every swallowed hint meets the rules |
| Report.NeedlessErrorsExact | tools/starbug_bundle_check.py:118-176 | Where every hint is right for every semantics, the checker passes the listing if and only if no bundle is longer than four, no two equal words in one share a destination and no worker is an AUIPC |
| Report.SideConditionsSuffice | tools/starbug_bundle_check.py:112-227 | No nested hints, adjacent members and no transfer in lane 0 leave nothing open |
| Report.ListingFramedExactly | tools/starbug_isa.py:181-318 | The decoder's sets hold of a listing on every machine if and only if all its words are defined or classed SYSTEM or UNKNOWN |
| Report.CleanReportRefines | tools/starbug_bundle_check.py:112-227 | On a clean listing that leaves nothing open, RV32IMAFC is what executes, whatever is honoured: refinement, final states and step counts |
| Gaps.BranchInLane0Diverges | tools/starbug_bundle_check.py:133-137 | A concrete listing with a taken branch in lane 0 that the checker passes and on which the hardware reaches a state the stock core never does |
| Gaps.NestedHintDiverges | tools/starbug_bundle_check.py:211-218 | A concrete listing with a nested hint that the checker passes and on which declining the outer bundle leads to a state the stock core never reaches |
| Example.PairIsHonoured | docs/HARDWARE_CONTRACT.md:127-129 | A concrete clean listing with an anti-dependent bundle meets every hypothesis, and honouring it takes one step to where the stock core gets in three |
| Example.PairMayBeCut | docs/paper/03-compiler.md:196-208 | The same bundle meets the hypotheses under which a bundle may be cut in two |
| Example.HarmlessNesting | tools/starbug_bundle_check.py:211-218 | A concrete clean listing with a nested hint that is right all the same: it violates the side conditions and meets the exact ones |
| Example.CopyIsHarmless | docs/HARDWARE_CONTRACT.md:123-124 | A concrete listing that breaks the RAW rule and is right on RV32IMAFC whatever is honoured, though not for every semantics |
| Example.TwinsAreHarmless | tools/starbug_bundle_check.py:160-176 | A concrete listing with one word twice in a bundle that is always right and is reported |
| Example.LongHintIsHarmless | tools/starbug_bundle_check.py:118-121 | A concrete listing with a hint of length five that is always right and is reported |
| Example.IdlePcRelIsHarmless | tools/starbug_bundle_check.py:133-142 | A concrete listing with an AUIPC to x0 in a worker lane that is always right and is reported |
| Example.SideEntryFallsShort | tools/starbug_profile.py:177-180 | A concrete listing and complete run with a jump onto a bundle member: three instructions executed, payload plus hints is one |
| Example.ExitOverCounts | tools/starbug_profile.py:165-180 | A concrete clean listing and complete run in which the branch that heads a bundle is taken: two instructions executed, payload plus hints is three |
| VliwConfig.FromCommandLine | llvm-overlay/llvm-snippets/StarbugVLIWConfig.cpp:179-219 | Builds lane 0 for anything and arithmetic lanes 1 to NumLanes-1, with at least one lane; `Sharing.PacketsExactly` says which classes these are |
| Packets.CollectRegAccesses | llvm-overlay/llvm-snippets/StarbugVLIWPacketizer.cpp:39-54 | Collects exactly the used and the defined registers, skipping non-registers and register 0 |
| Packets.TryAssignLane | llvm-overlay/llvm-snippets/StarbugVLIWPacketizer.cpp:144-161 | Finds the first legal lane not in use, and fails only when every legal lane is in use |
| Packets.LegalSnoc | llvm-overlay/llvm-snippets/StarbugVLIWPacketizer.cpp:193-225 | An appended packet is legal if and only if the packet was and the pass's own tests succeed; `Sharing.PacketsExactly` says for which instructions |
| Packets.LongestIs | llvm-overlay/llvm-snippets/StarbugVLIWPacketizer.cpp:193-225 | A legal run that cannot be extended is the longest legal packet at the front of the block |
| Packetizer.BlockPacketizer.FlushPacket | llvm-overlay/llvm-snippets/StarbugVLIWPacketizer.cpp:163-191 | Puts the hint, if due, before the packet's first member, records the packet and empties the packet state |
| Packetizer.BlockPacketizer.Append | llvm-overlay/llvm-snippets/StarbugVLIWPacketizer.cpp:218-221 | Keeps the loop invariant: the packet is the run just before the cursor and the sets are the unions of its members' |
| Packetizer.BlockPacketizer.Step | llvm-overlay/llvm-snippets/StarbugVLIWPacketizer.cpp:193-225 | One iteration keeps the packet legal, contiguous and not full, and on course for the maximal munch |
| Packetizer.BlockPacketizer.PacketizeBasicBlock | llvm-overlay/llvm-snippets/StarbugVLIWPacketizer.cpp:132-230 | The block ends as the hinted form of its maximal munch, and `changed` is set if and only if a hint was put in |
| Packetizer.PacketizeBlock | llvm-overlay/llvm-snippets/StarbugVLIWPacketizer.cpp:132-230 | The same for the pass as a whole, from an unhinted block |
| Packing.MunchIsGrouping | llvm-overlay/llvm-snippets/StarbugVLIWPacketizer.cpp:193-227 | Nothing is lost, moved or repeated; packets are legal and what stays alone could start none |
| Packing.LaneIsPosition | llvm-overlay/llvm-snippets/StarbugVLIWPacketizer.cpp:144-161 | First-fit succeeds if and only if all members but the first are arithmetic and there are lanes enough, and then member k is in lane k |
| Packing.GreedyIsOptimal | llvm-overlay/llvm-snippets/StarbugVLIWPacketizer.cpp:193-227 | No other in-order partition into legal packets and single instructions has fewer issue groups |
| Sharing.PacketsExactly | llvm-overlay/llvm-snippets/StarbugVLIWPacketizer.cpp:24-71 | Under the default lanes a block is one packet if and only if it has at most as many instructions as lanes, none of the eight barrier flags is set, no register operand of one is written by another, and all but the first are integer arithmetic by name and neither branch, return, load nor store by flag |
| Sharing.UnhintedExactly | llvm-overlay/llvm-snippets/StarbugVLIWPacketizer.cpp:167-177 | A packet stays without a hint if and only if it is smaller than the number of lanes and the option for its size, single or short, is off; else the hint with its length stands before it |
| Lowering.PacketIndependent | llvm-overlay/llvm-snippets/StarbugVLIWPacketizer.cpp:56-71 | A legal packet decodes to worker-legal members with no transfer, RAW, WAW or WAR |
| Lowering.PacketMayBePermuted | docs/HARDWARE_CONTRACT.md:146-153 | Every order of a legal packet runs to the same state |
| RoundTrip.EmitThenScan | tools/starbug_bundle_check.py:197-227 | Scanning the emitted block finds exactly the hinted packets, in order, with their positions, members and lengths |
| Emitted.EmittedBundle | llvm-overlay/llvm-snippets/StarbugVLIWPacketizer.cpp:163-191 | Each bundle found in the emitted block is a whole packet of the munch, and is safe to the checker if and only if it has at most four members |
| Emitted.PacketizedReportIsClean | tools/starbug_bundle_check.py:197-227 | With at most four lanes the checker passes everything the packetizer emits |
| Emitted.DefaultHints | llvm-overlay/llvm-snippets/StarbugVLIWPacketizer.cpp:167-177 | With short packets allowed and single hints off, a group is hinted if and only if it is a packet and has two members or more or there is one lane |
| Emitted.SingleHintsExactly | llvm-overlay/llvm-snippets/StarbugVLIWPacketizer.cpp:167-177 | With single hints off, a block gets a hint of length one if and only if there is one lane and something to packetize |
| Example.BlockIsHinted | llvm-overlay/llvm-snippets/StarbugVLIWPacketizer.cpp:163-185 | A concrete block of two independent additions meets the hypotheses and becomes one hinted packet under the default options |
| Example.OneLaneHintsSingles | llvm-overlay/llvm-snippets/StarbugVLIWPacketizer.cpp:167-177 | The same block on one lane gets a hint of length one before each addition, with single hints off |
| Emitted.HintedNestsNothing | llvm-overlay/llvm-snippets/StarbugVLIWPacketizer.cpp:24-37 | The emitted block has no hint inside a bundle |
| Emitted.PacketizedProgramIsSafe | llvm-overlay/llvm-snippets/StarbugVLIWPacketizer.cpp:132-230 | The emitted program is safe: every hint the hardware would form is adjacent, accepted and not headed by a transfer |
| Emitted.PackedProgramIsSafe | llvm-overlay/llvm-snippets/StarbugVLIWPacketizer.cpp:132-230 | The same for the packets of any number of blocks: every hint the hardware would form is adjacent, accepted and not headed by a transfer |
| BlockRun.StockRunsBlock | docs/HARDWARE_CONTRACT.md:26-29 | The stock core passes over the hints and runs the original block, which it leaves in the last of these steps |
| BlockRun.BlockMeets | docs/HARDWARE_CONTRACT.md:136-149 | In any safe block no honoured bundle steps over the step that leaves it, so every run meets the state that step leads to |
| BlockRun.PacketizerPreservesMeaning | llvm-overlay/llvm-snippets/StarbugVLIWPacketizer.cpp:132-230 | For every block, whatever transfer ends it: any STARBUG run of the hinted block passes through, or can be completed to, the state in which the original instructions run in order leave it; if the stock core halts there, a halted run is in it |
| Unhinted.PacketizedBlockAgrees | docs/HARDWARE_CONTRACT.md:143-149 | For RV32IMAFC blocks that keep no address: the stock core leaves the unhinted block, placed anywhere, with the registers and memory of a state the STARBUG machine on the hinted block passes through or can be completed to |
| Relocation.RelocatedRunRefines | docs/HARDWARE_CONTRACT.md:26-29 | For two programs that differ in hints and places: each state of a STARBUG run of the one corresponds to a state of the stock core on the other |
| Function.PacketizedFunctionRefines | llvm-overlay/llvm-snippets/StarbugVLIWPacketizer.cpp:132-230 | For RV32IMAFC functions of any number of blocks, packetized one by one and relocated: whatever is honoured, each state reached has the registers and memory of one the stock core reaches in the original, at the corresponding place, through loops and without end |
| Function.PacketizedFunctionHalts | llvm-overlay/llvm-snippets/StarbugVLIWPacketizer.cpp:132-230 | Where the original halts, every run of the hinted function can be completed to the corresponding state, with the same registers and memory, and a halted run is in it |
| Loop.LoopIsRelocated | llvm-overlay/llvm-snippets/StarbugVLIWPacketizer.cpp:193-225 | A concrete loop, with its body a bundle and its branch relocated, meets every hypothesis of the two theorems |
| Profile.BuildMaps | tools/starbug_profile.py:142-150 | Builds the map from hint address to safe bundle and the set of members' addresses |
| Profile.CountBundle | tools/starbug_profile.py:165-176 | Credits a bundle's members with the hint's count and keeps every breakdown adding up |
| Profile.CountLine | tools/starbug_profile.py:160-190 | One line of the accounting, in the source's order of tests, keeps every breakdown adding up; what each line adds is `Breakdown`'s matter |
| Profile.Account | tools/starbug_profile.py:152-205 | For every histogram the accounting of all lines, in which per-function, size, lane and class counters sum to the totals, sizes weighted by size give the bundled instructions, and at most four slots a bundle are filled |
| Breakdown.ProfileItemised | tools/starbug_profile.py:152-190 | Every figure as a sum over lines: hints are the hints in no safe bundle's body, scalar instructions the other lines in no safe bundle, bundle executions the counts of safe bundles' hints; each class, function, lane and size entry is the same sum over its own lines, a bundle being its hint's function's |
| Visits.FlowBalance | tools/starbug_profile.py:177-180 | Over any run and for any two addresses, visits to the second and exits from the first are visits to the first and entries into the second, less a step still pending |
| Conservation.ProfileIdentity | tools/starbug_profile.py:152-193 | For every listing and histogram, payload plus hints is the executed count with each member of a safe bundle credited with its hint's count |
| RunProfile.MemberCount | tools/starbug_profile.py:165-180 | In a run that does not end in the bundle a member is executed as often as the hint plus the side entries at or before it less the exits ahead of it |
| RunProfile.ProfileExact | tools/starbug_profile.py:142-193 | For every listing and complete run, payload plus hints and the weighted side entries into safe bundles is the instructions executed and the weighted exits from them, and each sum is zero if and only if there are none |
| RunProfile.CompleteRunProfile | tools/starbug_profile.py:142-193 | Where members are adjacent and no bundle is headed by a transfer, payload plus hints is at most the instructions executed, with equality if and only if no safe bundle is entered other than through its hint |
| RunProfile.MembersMatchHint | tools/starbug_profile.py:177-180 | In a complete run each member of a safe bundle only entered through its hint and left at its end is executed exactly as often as the hint |
| Cycles.PolicySaves | tools/starbug_straddle.py:92-95 | A run under any fixed choice is shorter than the stock run to the same state by the members behind the honoured hints, once per visit |
| Cycles.PolicyRunExists | docs/HARDWARE_CONTRACT.md:157-168 | Wherever the stock core halts, hardware with any fixed choice has a complete run to the same state |
| Straddle.Account | tools/starbug_straddle.py:62-83 | Executions and slots of the safe bundles with a byte in another cache line than their hint, and of the others, in total and for each function, as sums over the bundles |
| Straddle.StraightListingInOrder | tools/starbug_straddle.py:32-35 | Where members are adjacent, what `Account` assumes to tell the two sides by bytes holds |
| Straddle.CycleIdentity | tools/starbug_straddle.py:62-95 | On a clean listing with adjacent members, no nested hints and no transfer in lane 0, a complete run under any fixed choice takes exactly the slots behind its bundles fewer steps than the stock core |
| Straddle.CompleteRunExists | tools/starbug_straddle.py:62-95 | On such a listing, for any fixed choice and any halting stock run there is a complete run, shorter by exactly the slots behind its bundles |
| Straddle.ExtraIssueCycles | tools/starbug_straddle.py:92-95 | On such a listing, declining the bundles with a byte in another cache line than their hint costs exactly the reported dead slots against honouring all, and the live slots are the steps saved |
| Crc.ShiftIsTimesX | bench/kernels/crc32.c:13-17 | A step of the register, bits reflected, is multiplication by x modulo the generator of RFC 1952, given as its exponents 32, 26, 23, 22, 16, 12, 11, 10, 8, 7, 5, 4, 2, 1, 0 |
| Crc.KnownEntries | bench/kernels/crc32.c:13-17 | Table entries 1, 128 and 255 are 0x77073096, 0xEDB88320 and 0x2D02EF8D |
| Crc.KnownAnswer | bench/kernels/crc32.c:20-24 | The CRC of the digits 1 to 9 is the check value 0xCBF43926 |
| Crc.FeedByteIsBits | bench/kernels/crc32.c:13-17 | Adding a byte and shifting eight times feeds its bits one at a time, least significant first |
| Crc.TableStep | bench/kernels/crc32.c:22 | One table look-up replaces eight shifts, for every register value and byte |
| Crc.CrcOfSum | bench/kernels/crc32.c:20-24 | For three messages of one length, the exclusive or of the CRCs is the CRC of the exclusive or |
| CrcKernel.MessageByte | bench/kernels/crc32.c:12 | Byte i of the message is the remainder of 31 i + 7 by 256, said without the operator |
| CrcKernel.Kernel.Init | bench/kernels/crc32.c:11-18 | Fills the buffer with the byte pattern and the table with eight shifts of each byte, a shift being what `Crc.ShiftIsTimesX` says |
| CrcKernel.Kernel.Crc32 | bench/kernels/crc32.c:20-24 | Given the table, returns the bit-serial CRC-32 of the first n bytes |
| CrcKernel.Kernel.Run | bench/kernels/crc32.c:26 | Building the table and then running the loop leaves the bit-serial CRC of the message |

## Left out

- Floating-point values, raised flags, CSR and privileged effects are parameters (`Host`); traps, stalls, divider timing and cache timing are not modelled.
- objdump, Spike and their line formats, option parsing, printing and JSON: the tools start from lists of (address, word, size, function) and a pc-to-count map. Longer encodings, which the line pattern skips, do not occur in a listing.
- Diagnostic texts: an error or warning is a constructor with the lanes or lengths it names.
- Straddle.Account: keeps the per-function figures as four counters instead of one record of four, and does not create an all-zero record for a function whose safe bundles never ran.
- Profile.Account: takes the bundles as values, since it only reads them, and decodes a line where it stands rather than through a map keyed by address, which differs only on listings that repeat an address.
- Register aliasing and sub-registers in the packetizer: one flat register file. The class an instruction's name selects is data (`nameClass`), with the hypothesis `Faithful` that operands and class cover what the decoder sees, that the flags mark memory operations, transfers and system instructions for what they are, and that no instruction is itself a hint.
- The lane override string, which is off by default; the theorems about lanes assume the default lanes (`Standard`), the munch itself any lanes.
- Emitted.PacketizedProgramIsSafe: assumes fewer than 32 lanes, because the hint operand has five bits and a longer packet has no encoding.
- Unhinted.PacketizedBlockAgrees: is for blocks without AUIPC, links (JAL or JALR with a destination) and system instructions, which leave their own addresses in registers, and follows a block to its first transfer; Function.PacketizedFunctionRefines follows branches and jumps on.
- Function.PacketizedFunctionRefines: is for functions without AUIPC, links and system instructions too, so without calls, whose return addresses differ between the two placements. Indirect jumps, such as returns, must leave the function (`IndirectsLeave`), and the relocation of branches is a hypothesis (`Relocated`), the linker's work.
- Split.SplitAgrees: has the same limits, and cuts a bundle with no hint inside that no earlier bundle reaches into.
- Rv32.DecodeExact: gives the class alone for SYSTEM and fence encodings; Rv32.PrivilegedCovered says how the decoder's sets relate to the registers they use.
- Rv32Exec.ExecShape: leaves out privileged instructions, whose effects are a parameter that may do anything.
- Memory holds data only: code is fixed for a run, and a jump to an address that is not an instruction start halts the model.
- Cycles counts steps, one per issue; instruction latencies do not enter.
- Single-step traces of the fetch unit, the bundle-layout pass and the trace scheduler described under `docs/paper` are not part of this model, nor are the other kernels.
