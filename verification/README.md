# RISC-V IOPMP register map and configuration scripts, in Dafny

This project models the software around the zero-day-labs RISC-V IOPMP peripheral.

- **The register map.** The two generated C headers:
  - the unrolled `rv_iopmp` map, with MDCFG_0..7, SRCMD_EN/ENH 0..7 and ENTRY_ADDR/ADDRH/CFG 0..31;
  - the single-instance `iopmp` map.

  Both are constants, offset functions of the instance number, and field descriptors (mask, index).
- **The cocotb testbench's helpers.** These pack values into register words and unpack words read back:
  - protection-entry programming (OFF, TOR, NA4 and NAPOT of the RISC-V PMP);
  - SRCMD memory-domain enables;
  - MDCFG tops;
  - the MDCFGLCK/ENTRYLCK lock registers;
  - ERRREACT, ERR_REQINFO and ERR_REQID;
  - the HWCFG0 enable write;
  - the `*_REG_OFFSET` line parser.
- **The testbench's checks, as reference definitions.**
  - A lock-register machine. F only grows, L is sticky, and registers below F ignore writes. It replays `locking_test`.
  - The rule that memory domain m owns the entries from MDCFG_(m-1).T to MDCFG_m.T.
- **The package editor's main loop.** It copies a SystemVerilog package while dropping typedef blocks and lines that mention types to clean.
- **The template script's `bool_to_int` and `process_json`.** These merge a JSON configuration into nine default parameters and collect the (input, output) file pairs to render.

**Conventions.**
- Register words are `nat`; shifts, masks and bit tests are defined in module `Bits`.
- A write on the configuration port is a `RegWrite(offset, data, bytes)`.
- A read of n bytes is `ReadBytes(reg, n)`, the n low bytes of the register.
- Exceptions a helper raises (KeyError for an instance the header does not declare, OverflowError from `int2ba`/`to_bytes`, IndexError from a bitarray or token index) are `Result` errors.
- Randomness (`random.randint`) becomes parameters.
- Lists the scripts mutate are `seq` fields or loop variables of methods.

**Where the code and its documentation disagree, the model follows the code.**
- `set_srcmd_entry` is documented for domains 0..62. The code indexes `md[62 - element]`, so a domain e in 63..125 sets the same bit as e - 63, and only values outside 0..125 raise IndexError. `Srcmd.SrcmdWrites` models that.
- The memory-domain tests for domain 0 pass the bounds in swapped order; see the findings below.

## Model

| member | source | states |
|---|---|---|
| Bits.ExtractInsertSame | tb/test_rv_iopmp.py:289 | reading a field with (w >> index) & mask after writing v into it gives v & mask |
| Bits.ExtractInsertOther | tb/test_rv_iopmp.py:289 | writing one field leaves every field disjoint from it unchanged |
| Bits.AscendingWellFormed | include/rv_iopmp.h:14-21 | fields in increasing bit order, each a run of ones inside the word, are pairwise disjoint |
| RvIopmpRegs.MdcfgStrideMatchesHeader | include/rv_iopmp.h:147-239 | the eight MDCFG offsets the header lists are 0x800 + 4·i |
| RvIopmpRegs.SrcmdStrideMatchesHeader | include/rv_iopmp.h:242-327 | SRCMD_ENi is at 0x1000 + 0x20·i and SRCMD_ENHi four bytes above it, for i in 0..7 |
| RvIopmpRegs.EntryStrideMatchesHeader | include/rv_iopmp.h:331-903 | ENTRY_ADDRi is at 0x2000 + 0x10·i, with ENTRY_ADDRHi at +4 and ENTRY_CFGi at +8, for i in 0..31 |
| RvIopmpRegs.OffsetInBlock | include/rv_iopmp.h:13-903 | every declared register is 4-byte aligned and lies within its block (0x0..0x6f, 0x800..0x81f, 0x1000..0x10e7, 0x2000..0x21fb) |
| RvIopmpRegs.OffsetInjective | include/rv_iopmp.h:13-903 | no two declared registers share an offset, so the blocks do not overlap |
| RvIopmpRegs.FieldsWellFormed | include/rv_iopmp.h:10-903 | every field of every register fits in PARAM_REG_WIDTH = 32 bits, and the fields of one register are pairwise disjoint |
| RvIopmpRegs.Hwcfg0FieldsWellFormed | include/rv_iopmp.h:27-51 | HWCFG0's MODEL (bits 0-3), flag bits 4-13, MD_NUM (24-30) and ENABLE (31) are disjoint |
| RvIopmpRegs.ErrreactFieldsWellFormed | include/rv_iopmp.h:79-96 | ERRREACT's fields at bits 0, 1, 4, 5-7, 8, 9-11, 28 and 29-31 are disjoint |
| RvIopmpRegs.FieldsBelowRegWidth | include/rv_iopmp.h:10-903 | every field descriptor satisfies (mask << index) < 2^32 |
| RvIopmpRegs.FieldsTileWord | include/rv_iopmp.h:13-327 | VERSION, HWCFG1, HWCFG2, ERR_REQID, MDCFG_i (T, RES) and SRCMD_ENi (L, MD) are covered exactly by their fields |
| RvIopmpRegs.LockFieldsAboveLockBit | include/rv_iopmp.h:99-112 | the F fields of MDCFGLCK (7 bits) and ENTRYLCK (16 bits) start right above lock bit 0 |
| RvIopmpRegs.EntryCfgLowFiveBits | include/rv_iopmp.h:338-345 | R, W, X and A of ENTRY_CFG fill exactly the low five bits |
| RvIopmpRegs.ModelValueFits | include/rv_iopmp.h:28-36 | each MODEL enumeration value fits the 4-bit MODEL field and reads back after a write |
| IopmpRegs.AgreesWithUnrolledMap | configuration_scritps/regmap_scripts/rv_iopmp.h:13-177 | every single-instance register has the offset and fields of its rv_iopmp counterpart (instance 0 for the tables); the single MDCFG declares only T |
| IopmpRegs.OffsetInjective | configuration_scritps/regmap_scripts/rv_iopmp.h:13-171 | no two registers of the single-instance map share an offset |
| IopmpRegs.FieldsWellFormed | configuration_scritps/regmap_scripts/rv_iopmp.h:10-177 | every field fits in 32 bits with (mask << index) < 2^32, and the fields of a register are disjoint |
| IopmpRegs.FieldsTileWord | configuration_scritps/regmap_scripts/rv_iopmp.h:127-177 | SRCMD_EN (L, MD) and ERR_REQID (SID, EID) cover their word exactly; ENTRY_CFG's R, W, X, A fill the low five bits |
| TbBus.ReadBytes | tb/test_rv_iopmp.py:155-157 | a read of n bytes is below 2^(8n) and differs from the register by a multiple of 2^(8n), so it is exactly the n low bytes; a register that fits is returned whole |
| TbBus.SplitHalves | tb/test_rv_iopmp.py:122-124 | the [32:] and [:32] halves of a 64-bit value fit four bytes each and recombine to the value |
| PmpEntry.ConfigRoundTrip | tb/test_rv_iopmp.py:75-81 | the config word mode + access lies in 5 bits, and the header's A, X, W, R fields give back the mode and the access |
| PmpEntry.SetEntryConfig | tb/test_rv_iopmp.py:75-81 | set_entry_config writes one 4-byte word at ENTRY_CFGn that decodes to (mode, access), or raises KeyError for an undeclared entry |
| PmpEntry.EntryWrites | tb/test_rv_iopmp.py:122-125 | ADDR and ADDRH get the low and high words of v >> 2, and CFG decodes to the mode and access |
| PmpEntry.SetEntryShifted | tb/test_rv_iopmp.py:107-145 | TOR/OFF programming succeeds iff 0 <= addr < 2^64 and the entry is declared (OverflowError first, then KeyError), and then writes ADDRH·2^32 + ADDR = addr >> 2 |
| PmpEntry.SetEntryTor | tb/test_rv_iopmp.py:107-125 | set_entry_tor programs the entry with addr >> 2 in TOR mode |
| PmpEntry.SetEntryOff | tb/test_rv_iopmp.py:127-145 | set_entry_off programs the entry with addr >> 2 in OFF mode |
| PmpEntry.NapotValue | tb/test_rv_iopmp.py:86 | int(base + (length/2 - 1)) equals base + length/2 - 1 for even lengths |
| PmpEntry.SetEntryNapot | tb/test_rv_iopmp.py:83-105 | set_entry_napot writes NapotValue >> 2 over ADDR/ADDRH, in NA4 mode below length 8 and NAPOT otherwise, with the same errors as TOR |
| PmpEntry.NapotRoundTrip | tb/test_rv_iopmp.py:83-105 | for a power-of-two length >= 8 and an aligned base, the word has log2(length) - 3 trailing ones and decodes back to (base, length) in NAPOT mode |
| PmpEntry.NapotWordFacts | tb/test_rv_iopmp.py:83-105 | for an aligned power-of-two length 2^k >= 8 the value is inside 64 bits, the mode is NAPOT, and the address word has k - 3 trailing ones and decodes to exactly (base, 2^k) |
| PmpEntry.Na4RoundTrip | tb/test_rv_iopmp.py:89-90 | a 4-byte region at an aligned base is written as base >> 2 in NA4 mode |
| PmpEntry.CleanEntryWrites | tb/test_rv_iopmp.py:159-161 | clean_entry zeroes ADDR and ADDRH and writes config 0b10000 (NA4, no access) |
| Srcmd.SrcmdWrites | tb/test_rv_iopmp.py:169-187 | set_srcmd_entry succeeds iff every element indexes the 63-bit array and the entry is declared (IndexError first, then KeyError), and then writes two 32-bit words to SRCMD_ENi and SRCMD_ENHi |
| Srcmd.SetSrcmdEntry | tb/test_rv_iopmp.py:169-187 | the loops that set the bitarray bits and read the integer produce exactly SrcmdWrites |
| Srcmd.SrcmdEnables | tb/test_rv_iopmp.py:172-187 | the written ENH:EN word has bit m + 1 set iff m (or m + 63) is listed, and lock bit 0 clear |
| Srcmd.SrcmdListOrderIrrelevant | tb/test_rv_iopmp.py:174-175 | lists with the same elements, in any order and with any repetitions, give the same writes |
| Srcmd.MdBitmapStep | tb/test_rv_iopmp.py:175 | md[62 - e] = 1 sets exactly one position of the bitmap |
| Srcmd.BitOfBitsValue | tb/test_rv_iopmp.py:186-187 | bit k of ba2int(bs) is the k-th element from the end of the bitarray |
| LockRegs.SetMdcfglck | tb/test_rv_iopmp.py:218-223 | set_mdcfglck writes one byte to MDCFGLCK iff 0 <= f < 128, else OverflowError |
| LockRegs.SetEntrylck | tb/test_rv_iopmp.py:235-240 | set_entrylck writes four bytes to ENTRYLCK iff 0 <= f < 2^16, else OverflowError |
| LockRegs.ReadMdcfglck | tb/test_rv_iopmp.py:225-233 | one byte of MDCFGLCK split at bit 1: 2·f + lock is the register's low byte and lock is 0 or 1, so f < 128; it returns what set_mdcfglck wrote (MdcfglckRoundTrip) |
| LockRegs.ReadEntrylck | tb/test_rv_iopmp.py:242-250 | one byte of ENTRYLCK split at bit 1: 2·f + lock is the register's low byte, so f < 128; it returns the written (f, lock) only while f < 128 (EntrylckRoundTripBelow128, EntrylckReadTruncates) |
| LockRegs.ReadEntrylckWord | tb/test_rv_iopmp.py:242-250 | the same split over all four bytes: 2·f + lock is the whole 32-bit register; it returns the written (f, lock) for every f the write accepts (EntrylckRoundTrip) |
| LockRegs.LockNext | tb/test_rv_iopmp.py:501-520 | the lock rule the test asserts: a locked register ignores the write; otherwise L takes the written bit and F becomes the larger of the old and the written count |
| LockRegs.MdcfglckRoundTrip | tb/test_rv_iopmp.py:218-233 | read_mdcfglck returns the (f, lock) set_mdcfglck wrote, and the header's F field and L bit hold them |
| LockRegs.EntrylckRoundTripBelow128 | tb/test_rv_iopmp.py:235-250 | read_entrylck returns the written (f, lock) while f < 128 |
| LockRegs.EntrylckReadTruncates | tb/test_rv_iopmp.py:242-250 | the one-byte read_entrylck reads set_entrylck(128, 0) as (0, 0) |
| LockRegs.EntrylckRoundTrip | tb/test_rv_iopmp.py:235-240 | a four-byte read returns the written (f, lock) for every f the write accepts |
| LockRegs.LockWordFields | tb/test_rv_iopmp.py:221 | the word 2f + l splits back into (f, l) and the F field and L bit hold them |
| LockRegs.LockRunMonotone | tb/test_rv_iopmp.py:505-520 | over any writes F never decreases, and a locked register never changes |
| LockRegs.LockRunFreezes | tb/test_rv_iopmp.py:509-520 | after a write that sets L, the register stays locked with the F it had then |
| LockRegs.LockModel.constructor | tb/test_rv_iopmp.py:49-58 | after reset both lock registers, every MDCFG_j and every entry read 0 |
| LockRegs.LockModel.WriteMdcfglck | tb/test_rv_iopmp.py:501-520 | a write to MDCFGLCK passes its F field and L bit through the lock rule and changes nothing else |
| LockRegs.LockModel.WriteEntrylck | tb/test_rv_iopmp.py:536-555 | a write to ENTRYLCK passes its F field and L bit through the lock rule and changes nothing else |
| LockRegs.LockModel.WriteMdcfg | tb/test_rv_iopmp.py:492-497 | MDCFG_j ignores a write when j < MDCFGLCK.F and takes it otherwise |
| LockRegs.LockModel.WriteEntry | tb/test_rv_iopmp.py:526-532 | ENTRY_j ignores a write when j < ENTRYLCK.F, otherwise stores it in the word its offset names |
| LockRegs.MdcfgLockingLoop | tb/test_rv_iopmp.py:492-497 | locking MDCFG_0..i before writing MDCFG_i makes every read in the first locking loop return 0 |
| LockRegs.EntryLockingLoop | tb/test_rv_iopmp.py:526-532 | locking entries 0..i before programming entry i makes both words of every read_entry 0 |
| LockRegs.LockAndProbeEntry | tb/test_rv_iopmp.py:527-528 | writing ENTRYLCK.F = i + 1 and then the three TOR words of entry i leaves ENTRYLCK at (i + 1, unlocked) and the entry table unchanged |
| LockRegs.LockingProbesVisible | tb/test_rv_iopmp.py:528-532 | the probe values would be visible to the one-byte reads had the writes not been ignored |
| LockRegs.MdcfglckLockingSequence | tb/test_rv_iopmp.py:501-520 | replaying the MDCFGLCK steps after reset reads F = 2, F still 2 after writing 1, and L = 1 after locking then writing MEM_DOMAINS, after trying to clear L, and after setting it again |
| LockRegs.EntrylckLockingSequence | tb/test_rv_iopmp.py:536-555 | replaying the ENTRYLCK steps after reset, with the one-byte read_entrylck, gives F = 2, F still 2 after writing 1 and after locking then writing MEM_DOMAINS, and L = 1 after trying to clear it and after setting it again |
| ErrRegs.SetErrreact | tb/test_rv_iopmp.py:252-257 | set_errreact writes four bytes to ERRREACT |
| ErrRegs.ErrreactFields | tb/test_rv_iopmp.py:252-257 | the written word holds lock, ie, ire and iwe in the header's L, IE, IRE and IWE bits and 0 in RRE, RWE, PEE and RPE and in the unnamed bits 2 and 3 |
| ErrRegs.ReadErrreact | tb/test_rv_iopmp.py:259-266 | one byte of ERRREACT split at bits 0/1/4/8 into four flags, each 0 or 1; it returns the lock, ie and ire written (ErrreactOneByteRead) and iwe is always 0 (ErrreactIweLost) |
| ErrRegs.ReadErrreactWord | tb/test_rv_iopmp.py:259-266 | the same split over all four bytes, each flag 0 or 1; it returns the four flags set_errreact wrote (ErrreactRoundTrip) |
| ErrRegs.ReadErrReqinfo | tb/test_rv_iopmp.py:280-289 | ip <= 1, ttype <= 3, etype <= 7; they are exactly the header's IP, TTYPE and ETYPE fields (ErrReqinfoDecodes) |
| ErrRegs.ReadErrReqid | tb/test_rv_iopmp.py:291-300 | sid and eid each below 2^16; as written it returns (reg mod 256, 0) (ErrReqidTruncated) |
| ErrRegs.ReadErrReqidWord | tb/test_rv_iopmp.py:291-300 | sid and eid each below 2^16; they are the header's SID and EID fields of any 32-bit register (ErrReqidDecodes) |
| ErrRegs.ErrreactRoundTrip | tb/test_rv_iopmp.py:259-266 | a four-byte read_errreact returns the four flags set_errreact wrote |
| ErrRegs.ErrreactOneByteRead | tb/test_rv_iopmp.py:252-266 | after set_errreact, the one-byte read_errreact returns the written lock, ie and ire, and 0 for iwe |
| ErrRegs.ErrreactIweLost | tb/test_rv_iopmp.py:259-266 | the one-byte read_errreact always returns iwe = 0 |
| ErrRegs.ErrReqinfoDecodes | tb/test_rv_iopmp.py:280-289 | read_err_reqinfo returns exactly the header's IP, TTYPE and ETYPE fields of the register |
| ErrRegs.ErrReqidDecodes | tb/test_rv_iopmp.py:291-300 | a four-byte read_err_reqid returns the header's SID and EID fields |
| ErrRegs.ErrReqidTruncated | tb/test_rv_iopmp.py:291-300 | the one-byte read_err_reqid returns (reg mod 256, 0) |
| ErrRegs.EnableIopmp | tb/test_rv_iopmp.py:268-278 | enable_iopmp writes four bytes to HWCFG0 |
| ErrRegs.EnableWordFields | tb/test_rv_iopmp.py:268-278 | 0x80000000 sets HWCFG0's ENABLE bit and writes 0 to every other HWCFG0 field |
| MdRanges.SetMdcfgEntry | tb/test_rv_iopmp.py:191-201 | set_mdcfg_entry writes t as four bytes to MDCFG_n iff n is declared (else KeyError) and t fits 32 bits (else OverflowError) |
| MdRanges.MdcfgEntryFields | tb/test_rv_iopmp.py:191-201 | the word written for a top t < 2^16 holds t in the T field and 0 in RES |
| MdRanges.SetRandomMds | tb/test_rv_iopmp.py:455-468 | the tops start at the first draw, grow by each step, end at IOPMP_ENTRIES, strictly increase, and each is written to its MDCFG |
| MdRanges.OwnerOf | tb/test_rv_iopmp.py:607-613 | with increasing tops, every entry below the last top belongs to some domain |
| MdRanges.OwnerUnique | tb/test_rv_iopmp.py:607-613 | an entry belongs to at most one domain |
| MdRanges.NoOwnerAbove | tb/test_rv_iopmp.py:607-613 | no domain owns an entry at or above the last top |
| MdRanges.RandomMdsPartition | tb/test_rv_iopmp.py:455-468 | the tops set_random_mds programs give each of the IOPMP_ENTRIES entries exactly one domain |
| MdRanges.MdTestBounds | tb/test_rv_iopmp.py:611-613 | range(start, stop) of the rule's bounds is exactly the entries of domain m |
| MdRanges.Md0UntestedAsWritten | tb/test_rv_iopmp.py:608-610 | the domain-0 calls as written test no entry, though domain 0 owns entry 0 |
| MdRanges.TorTested | tb/test_rv_iopmp.py:414-415 | tor_entry_test never visits entry 0; for a start >= 0 it visits exactly the entries in [start, stop) other than 0 |
| MdRanges.MdTestsCoverDomain | tb/test_rv_iopmp.py:407-415 | with the rule's bounds the NAPOT test covers exactly domain m and the TOR test all of it but entry 0 |
| MdRanges.AsWrittenAgreesAboveMd0 | tb/test_rv_iopmp.py:611-613 | the calls for domains m > 0 follow the rule as written |
| AddrOffsets.GetAddrOffsets | tb/test_rv_iopmp.py:60-71 | the per-line loop that fills the dictionary computes Params(lines) |
| AddrOffsets.ParamsErrSticky | tb/test_rv_iopmp.py:67-69 | once a matching line lacks a third token, the parse fails with that error |
| AddrOffsets.ParamsOkIff | tb/test_rv_iopmp.py:67-69 | the parse succeeds iff every "_REG_OFFSET" line has at least three space-separated tokens, and fails with IndexError otherwise |
| AddrOffsets.ParamsLookup | tb/test_rv_iopmp.py:64-71 | a name is in the table iff some matching line carries it as its second token, and maps to the third token of the last such line |
| AddrOffsets.ParamsIgnoresOtherLines | tb/test_rv_iopmp.py:67 | lines without "_REG_OFFSET" can be inserted anywhere without changing the table |
| AddrOffsets.DefineLineParsed | tb/test_rv_iopmp.py:67-69 | a header line "#define NAME VALUE" maps NAME to VALUE |
| Text.FirstIndex | tb/test_rv_iopmp.py:68 | the position of the first occurrence of the separator |
| Text.SplitPiecesFree | tb/test_rv_iopmp.py:68 | no piece of line.split(" ") contains the separator |
| Text.JoinSplit | tb/test_rv_iopmp.py:68 | joining the pieces of a split with the separator gives back the line |
| Text.SplitJoin | tb/test_rv_iopmp.py:68 | splitting the join of separator-free pieces gives back the pieces |
| PkgEditor.ClearIfDirty | configuration_scritps/regmap_scripts/scripts/pkg_editor.py:46-54 | the nested search that clears temp_lines while iterating over it leaves the buffer whole iff no buffered line mentions a type to clean, else empty |
| PkgEditor.FindType | configuration_scritps/regmap_scripts/scripts/pkg_editor.py:67-72 | found is set iff the line mentions some type to clean |
| PkgEditor.EditPackage | configuration_scritps/regmap_scripts/scripts/pkg_editor.py:40-75 | the loop writes exactly Output(lines, types), the line-by-line state machine |
| PkgEditor.RunBeforeMarker | configuration_scritps/regmap_scripts/scripts/pkg_editor.py:43-64 | before the marker the loop has written the clean complete typedef blocks and buffers the open one |
| PkgEditor.RunAtMarker | configuration_scritps/regmap_scripts/scripts/pkg_editor.py:45-58 | the marker line flushes the open block (kept only when clean), is written itself, and switches the loop to filtering with an empty buffer |
| PkgEditor.RunAfterMarker | configuration_scritps/regmap_scripts/scripts/pkg_editor.py:56-75 | the marker flushes the open block and is written once; after it exactly the lines mentioning no type to clean are written, later markers included |
| PkgEditor.OutputWithMarker | configuration_scritps/regmap_scripts/scripts/pkg_editor.py:40-75 | the output is the clean blocks before the marker, the marker, and the clean lines after it |
| PkgEditor.OutputWithoutMarker | configuration_scritps/regmap_scripts/scripts/pkg_editor.py:45-54 | without a marker the last buffered block is never written |
| PkgEditor.ProcessedIffMarkerSeen | configuration_scritps/regmap_scripts/scripts/pkg_editor.py:56-58 | typedefs_processed holds iff the marker occurred, and never returns to False |
| PkgEditor.ChunksFlatten | configuration_scritps/regmap_scripts/scripts/pkg_editor.py:61-64 | cutting the renamed lines into typedef blocks loses and adds nothing |
| PkgEditor.ChunksTypedefOnlyFirst | configuration_scritps/regmap_scripts/scripts/pkg_editor.py:43-62 | the preamble block holds no typedef line and every later block holds one only as its first line, so a block runs up to the next typedef line |
| PkgEditor.ChunksStartAtTypedefs | configuration_scritps/regmap_scripts/scripts/pkg_editor.py:45 | every block after the preamble is non-empty and begins with a typedef line of the input, renamed |
| PkgEditor.OutputNothingToClean | configuration_scritps/regmap_scripts/scripts/pkg_editor.py:45-75 | with no types to clean and a marker, the output is the input with the package line renamed before the marker |
| PkgEditor.OutputIsSubsequence | configuration_scritps/regmap_scripts/scripts/pkg_editor.py:40-75 | the output is an order-preserving subsequence of the input with the package line renamed before the marker |
| PkgEditor.OutputIsSubsequenceWithoutMarker | configuration_scritps/regmap_scripts/scripts/pkg_editor.py:40-64 | without a marker, the output is an order-preserving subsequence of the renamed input |
| Template.BoolToInt | configuration_scritps/tpl_scripts/rv_iopmp_template.py:34-36 | bool_to_int returns 0 or 1 |
| Template.BoolToIntOfBool | configuration_scritps/tpl_scripts/rv_iopmp_template.py:34-36 | JSON true gives 1 and false gives 0 |
| Template.BoolToIntOfInt | configuration_scritps/tpl_scripts/rv_iopmp_template.py:34-36 | an integer gives 1 iff it is 1 (Python's == True), so 2 and "true" give 0 |
| Template.BoolToIntOfReal | configuration_scritps/tpl_scripts/rv_iopmp_template.py:34-36 | a float gives 1 iff it is 1.0 (Python's 1.0 == True), so 0.5 gives 0 |
| Template.GetSet | configuration_scritps/tpl_scripts/rv_iopmp_template.py:47-64 | storing under one key changes that key's value and no other |
| Template.TemplateConfig.constructor | configuration_scritps/tpl_scripts/rv_iopmp_template.py:18-32 | the script starts with the nine defaults and no files to generate |
| Template.OverrideKey | configuration_scritps/tpl_scripts/rv_iopmp_template.py:47-64 | one `if key in data` test: a key the data names is stored in its configured form, any other leaves the parameters as they were |
| Template.TemplateConfig.ApplyOverrides | configuration_scritps/tpl_scripts/rv_iopmp_template.py:47-64 | the nine `if key in data` tests leave the parameters equal to Merged(old parameters, data) and the file list unchanged |
| Template.TemplateConfig.ProcessJson | configuration_scritps/tpl_scripts/rv_iopmp_template.py:39-71 | process_json merges the overrides, appends NewFiles(data) to the existing pairs, and ends as Outcome(data) |
| Template.MergedSteps | configuration_scritps/tpl_scripts/rv_iopmp_template.py:47-64 | the merge is the nine overrides applied one after the other, in the source's order |
| Template.MergeKeysLookup | configuration_scritps/tpl_scripts/rv_iopmp_template.py:47-64 | after the overrides for a list of keys, a listed key the data names holds its stored form and every other key its old value |
| Template.MergedLookup | configuration_scritps/tpl_scripts/rv_iopmp_template.py:47-64 | each parameter the configuration names takes the configured value (through bool_to_int for the three flags), and every other keeps its old value |
| Template.UnknownKeysIgnored | configuration_scritps/tpl_scripts/rv_iopmp_template.py:47-64 | configuration keys that name no parameter change nothing |
| Template.NoKnownKeysNoChange | configuration_scritps/tpl_scripts/rv_iopmp_template.py:47-64 | a configuration naming no parameter leaves the parameters as they are |
| Template.MergedIdempotent | configuration_scritps/tpl_scripts/rv_iopmp_template.py:47-64 | applying the same configuration twice equals applying it once |
| Template.FlagsStayBits | configuration_scritps/tpl_scripts/rv_iopmp_template.py:51-56 | from the defaults, enable_tor, enable_sps and enable_usr_cfg are always 0 or 1 after the merge |
| Template.GoodPrefix | configuration_scritps/tpl_scripts/rv_iopmp_template.py:66-69 | the number of leading entries that are objects with both file names, and the next entry is not one |
| Template.FileList | configuration_scritps/tpl_scripts/rv_iopmp_template.py:66 | a KeyError exactly when files_to_generate is missing; a list yields its elements; only a list yields any entry, and any other error comes from a value that is not a list |
| Template.OutcomeOkIff | configuration_scritps/tpl_scripts/rv_iopmp_template.py:66-71 | process_json ends without an error iff files_to_generate is present, iterable, and every entry has both file names |
| Template.NewFilesInOrder | configuration_scritps/tpl_scripts/rv_iopmp_template.py:66-71 | on success one [input_file, output_file] pair is appended per entry, in order |
| Template.BadEntryKeepsEarlierPairs | configuration_scritps/tpl_scripts/rv_iopmp_template.py:66-71 | at a bad entry the earlier pairs stay appended, and the error is KeyError for an object missing a name and TypeError for anything else |

## Left out

- The cocotb/AXI traffic, clocks, reset, `await`, the DUT signal checks, `error_assessment`, `napot_entry_test` and `tor_entry_test` transactions: simulation I/O. Of the entry tests, only the entry ranges they visit are modelled (`MdRanges.Range`, `MdRanges.TorTested`).
- The IOPMP permission-matching engine: its RTL is not part of this model. The lock machine covers only what `locking_test` asserts.
- `calculate_axi_lenght_size` and `set_random_sids`: they only choose random transfer sizes and domain lists. `set_random_mds` takes its draws as parameters.
- `read_err_reqaddr`, `read_err_reqaddrh`, `clean_error_reg` and `clear_mdcfg_entry`: each is one read or write of a whole register with no packing.
- `clean_all_entries`: its calls are never awaited, so it has no effect.
- `read_mdcfg_entry` and `read_entry` appear only as reads on the lock machine (`LockRegs.LockModel.ReadMdcfg`, `LockRegs.LockModel.ReadEntry`).
- Logging, `print` (including the one inside `bool_to_int`), and file, JSON and Mako reading, writing and rendering:
  - the offset table takes the header's lines as a parameter;
  - the package editor takes the input lines and `types_to_clean` as parameters, so its own `process_json` (the JSON reading) is not part of this model;
  - the template's `main` (rendering each pair) is not part of this model.
- `int(..., 16)` on the offset text: the testbench helpers take offsets from the register-map model rather than from the parsed table. `AddrOffsets` models the table itself.
- The `bitfield_field32_t` helpers of the headers are defined by a header that is not part of this model. Field read and write are defined locally (`Bits.Extract`, `Bits.Insert`).
- PmpEntry.NapotValue: computes `length/2` exactly, with int() truncating toward zero. Double-precision rounding for sums beyond 2^53 is not modelled.
- Template.TemplateConfig.ProcessJson: a top-level JSON value that is not an object is not modelled. The configuration is a map from keys to values, and the nine-entry parameters dictionary is a record with one field per key.
- Template.FileList: treats a non-empty object or string given as files_to_generate as a TypeError at its first member. An empty one iterates over nothing.

## Findings

| source | as written | input that shows it | evidently intended | confidence | as-written member | corrected member |
|---|---|---|---|---|---|---|
| tb/test_rv_iopmp.py:242-250 | read_entrylck reads one byte of ENTRYLCK, whose F field spans bits 1-16 | set_entrylck(128, 0) then read_entrylck returns (0, 0) | read all four bytes, returning (f, lock) for every f < 2^16 | not executed; the tests only write f <= 32 | LockRegs.EntrylckReadTruncates | LockRegs.EntrylckRoundTrip |
| tb/test_rv_iopmp.py:259-266 | read_errreact reads one byte of ERRREACT, but iwe is bit 8 | set_errreact(0, 0, 0, 1) then read_errreact returns iwe = 0 | read four bytes, returning the four flags written | not executed; the test that would check it is commented out | ErrRegs.ErrreactIweLost | ErrRegs.ErrreactRoundTrip |
| tb/test_rv_iopmp.py:291-300 | read_err_reqid reads one byte of ERR_REQID, so EID (bits 16-31) and SID bits 8-15 are lost | a register holding SID 0x100 and EID 1 reads as (0, 0) | read four bytes, returning the SID and EID fields | not executed; the values are only logged | ErrRegs.ErrReqidTruncated | ErrRegs.ErrReqidDecodes |
| tb/test_rv_iopmp.py:608-610 | for domain 0 the tests call tor_entry_test/napot_entry_test with stop_entry = 0 and start_entry = md_entries_list[0] | any tops with tops[0] >= 1: range(tops[0], 0) is empty, so entries 0..tops[0]-1 are never tested | stop_entry = md_entries_list[0], start_entry = 0 | not executed | MdRanges.Md0UntestedAsWritten | MdRanges.MdTestsCoverDomain |
