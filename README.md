# cJTAG link layer and ARC register cache, modelled in Dafny

This project models two parts of the Synopsys DesignWare ARC fork of OpenOCD.

**The cJTAG driver** (`ftdi_cjtag.c` and its near-duplicate `arc_ftdi_cjtag.c`).
It speaks compact JTAG (IEEE Std 1149.7-2009) through an FTDI MPSSE adapter.
It turns TMS strings into byte blocks for the adapter, one block per TCK cycle.
It builds the escape and scan sequences that put the target in two-wire OSCAN1 mode.
It also moves the TAP controller between states and executes JTAG scans.
The model has three modules:

- `Tap`: the sixteen-state TAP controller of IEEE Std 1149.1. The driver never computes this machine. It is the independent reference against which the driver's hand-written TMS strings are checked.
- `CJtagEncoding`: the pure part. It covers TMS strings (`_` and space are separators that clock nothing), the ZBS and NZBS scan idioms, and the 18-byte OSCAN1 cycle of `send_JTAG`. It also covers the 3-byte normal cycle, the trailers, and the fixed pin, escape, format-switch and check packets. Last, it holds the table of TAP moves.
- `CJtagLink`: the driver's globals as the fields of a class `Link`. These are the scan format, the want-result flag, `ulTxCount`, the TAP state, the end state and `pucRxBuffer`. The adapter is a ghost log `traffic` of writes (the bytes) and reads (the byte count). Every driver function is a method. Each one is proved to append exactly the traffic given by a function of the state it starts in, and to leave the globals as stated.

**The ARC register cache** (`arc_regs.c`, module `ArcRegs`).
The cache has 99 entries with feature and `exist` classification, get and set with valid/dirty bookkeeping, and the GDB register list.
The source's quirks are kept as written:

- The description table has 68 initialisers; rows 68 to 98 are zero, so they carry regnum 0.
- Get and set mark `reg_list[regnum]`, not the entry they were called on. So lp_start and lp_end (rows 66 and 67, numbered 75 and 76) are never served from the cache, and a set on a zero row marks r0 valid and dirty.
- lp_count and pcl (60 and 63) are read from aux space, at their register number as address.

A JTAG read is an oracle: get takes the value the target would answer as a parameter. A ghost log records which core or aux register was read.

## Model

| member | source | states |
|---|---|---|
| CJtagEncoding.ZbsBits | src/jtag/drivers/ftdi_cjtag.c:315-329 | the ZBS string clocks exactly 4·repeat+1 cycles: "1011" repeat times, then a single 0 |
| CJtagEncoding.ZbsFromIdle | src/jtag/drivers/ftdi_cjtag.c:315-329 | from Run-Test/Idle, a zero-bit scan returns to Run-Test/Idle, never enters Test-Logic-Reset and shifts no DR bit |
| CJtagEncoding.NzbsBits | src/jtag/drivers/ftdi_cjtag.c:340-359 | the NZBS string clocks exactly amount+5 cycles: "10", amount zeros, "110" |
| CJtagEncoding.NzbsFromIdle | src/jtag/drivers/ftdi_cjtag.c:340-359 | from Run-Test/Idle, a non-zero-bit scan returns to Run-Test/Idle, never enters Test-Logic-Reset, and shifts exactly `amount` DR bits (the count the escape protocol decodes) |
| CJtagEncoding.IdleStringFromAnyState | src/jtag/drivers/ftdi_cjtag.c:163-175 | the forced-idle string brings the TAP to Run-Test/Idle from every state, through Test-Logic-Reset |
| CJtagEncoding.ReconnectFromIdle | src/jtag/drivers/ftdi_cjtag.c:587-611 | the reconnect string of enter_2wire_mode_and_test starts and ends in Run-Test/Idle, passes Shift-IR and never resets the TAP |
| CJtagEncoding.JtagCycleEncoding | src/jtag/drivers/ftdi_cjtag.c:419-478 | a send_JTAG cycle is 18 bytes; byte 2 encodes TMS and inverted TDI (0x01/0x00/0x03/0x02); bytes 7, 11 and 16 depend on TMS only: 0xB1/0xB3, 0x80/0x82 and 0xA0/0xA2 for TMS low/high |
| CJtagEncoding.JtagCycleInjective | src/jtag/drivers/ftdi_cjtag.c:419-478 | the four (TMS, TDI) cycles are pairwise distinct: equal blocks mean equal levels |
| CJtagEncoding.Oscan1TmsCycleIsJtagCycle | src/jtag/drivers/ftdi_cjtag.c:744-816 | the OSCAN1 block the transition loops emit for a TMS level is the send_JTAG block for that TMS with TDI low |
| CJtagEncoding.Oscan1BodyIsJtagCycles | src/jtag/drivers/ftdi_cjtag.c:744-816 | a whole OSCAN1 transition block is the concatenation of send_JTAG cycles with TDI low |
| CJtagEncoding.CycleBytes | src/jtag/drivers/ftdi_cjtag.c:203-278 | one cycle's block has the framing's size: 18 bytes in OSCAN1, 3 in normal format |
| CJtagEncoding.Body | src/jtag/drivers/ftdi_cjtag.c:195-279 | the cycle blocks of a TMS string take 18 bytes per cycle in OSCAN1 and 3 in normal format |
| CJtagEncoding.TransitionsBlockLength | src/jtag/drivers/ftdi_cjtag.c:280-301 | the block transitions writes is the cycles plus its trailer, 0x81 0x87 in normal format without want-result and 0x87 otherwise; it always ends in 0x87 |
| CJtagEncoding.ScanSequencesFit | src/jtag/drivers/arc_ftdi_cjtag.c:258-364 | with repeat/amount at most 10, every ZBS and NZBS in normal format fits the 0x100-byte buffer and its unsigned char counter; in OSCAN1 an NZBS fits exactly when amount ≤ 9 and a ZBS when repeat ≤ 3, so NZBS(10) in OSCAN1 must never be issued |
| CJtagEncoding.FormatSwitchSequences | src/jtag/drivers/ftdi_cjtag.c:637-692 | both format-switch sequences are 18 bytes and differ; the pin set-up is 8 bytes and the escape sequence 28 |
| CJtagEncoding.CheckPacketBytes | src/jtag/drivers/ftdi_cjtag.c:504-518 | the check packet is 3 bytes, 0x4B 0x03 0x00 in normal format and 0x1B 0x03 0x00 in OSCAN1 |
| CJtagEncoding.MoveTableSound | src/jtag/drivers/ftdi_cjtag.c:827-870 | every tabled move string takes the TAP from its start to its goal state without passing Test-Logic-Reset and without a Shift-DR cycle |
| CJtagEncoding.MovesFromExit1 | src/jtag/drivers/ftdi_cjtag.c:852-864 | the moves out of Exit1-DR and Exit1-IR reach their goal state without a reset |
| CJtagEncoding.MoveLeg | src/jtag/drivers/ftdi_cjtag.c:827-870 | from any start but Test-Logic-Reset, for a tabled pair (or start = goal), the cycles cjtag_move_to_state clocks take the TAP from start to goal with no reset and no Shift-DR cycle |
| CJtagEncoding.MoveCyclesBounds | src/jtag/drivers/ftdi_cjtag.c:827-870 | no tabled move is longer than MAX_PREAMBLE (6) cycles, and no move out of an Exit1 state is longer than MAX_POSTAMBLE (2) |
| CJtagEncoding.MoveCyclesTight | src/jtag/drivers/ftdi_cjtag.c:827-870 | both bounds are reached: Pause-DR to Shift-IR takes 6 cycles and Exit1-DR to Run-Test/Idle takes 2 |
| CJtagLink.ScanReadCount | src/jtag/drivers/ftdi_cjtag.c:955 | the scan's read count is num_bits plus the cycles of both moves, between num_bits and num_bits+8, so within the 1000-byte receive buffer for every accepted scan |
| CJtagLink.Put | src/jtag/drivers/ftdi_cjtag.c:421-475 | storing bytes at `ucCount++` leaves the earlier bytes and appends exactly the given ones |
| CJtagLink.Link.constructor | src/jtag/drivers/ftdi_cjtag.c:48-55 | the static initialisers: normal format, result wanted, counter zero, 1000-byte receive buffer |
| CJtagLink.Link.InNormalScanMode | src/jtag/drivers/ftdi_cjtag.c:623-626 | true exactly in the normal format |
| CJtagLink.Link.WantResult | src/jtag/drivers/ftdi_cjtag.c:703-708 | sets the flag and returns its previous value, changing nothing else |
| CJtagLink.Link.SetFormat | src/jtag/drivers/ftdi_cjtag.c:637-692 | no traffic and no change for the current format; otherwise one 18-byte switch sequence and the new format |
| CJtagLink.Link.FillCycles | src/jtag/drivers/ftdi_cjtag.c:195-279 | the per-character loop counts one cycle per non-separator character and stores exactly the cycle blocks of the string |
| CJtagLink.Link.Transitions | src/jtag/drivers/ftdi_cjtag.c:187-302 | resets ulTxCount to the string's cycle count, writes the cycle blocks and trailer, then reads 1 byte (normal, no want-result) or ulTxCount bytes |
| CJtagLink.Link.CjtagTransitions | src/jtag/drivers/ftdi_cjtag.c:744-816 | adds the string's cycles to ulTxCount and writes one OSCAN1 block per cycle, with no read |
| CJtagLink.Link.ZeroBitScan | src/jtag/drivers/arc_ftdi_cjtag.c:370-387 | with repeat ≤ 10 (≤ 3 in OSCAN1) builds the ZBS string and clocks it: ulTxCount becomes 4·repeat+1 |
| CJtagLink.Link.NonZeroBitScan | src/jtag/drivers/arc_ftdi_cjtag.c:393-416 | with amount ≤ 10 (≤ 9 in OSCAN1) builds the NZBS string and clocks it: ulTxCount becomes amount+5 |
| CJtagLink.Link.EnterControlMode | src/jtag/drivers/ftdi_cjtag.c:371-381 | ZBS(level), NZBS(1), then three idle cycles to lock the control level |
| CJtagLink.Link.SendJtag | src/jtag/drivers/ftdi_cjtag.c:419-478 | writes exactly the 18-byte cycle for the given TMS and TDI |
| CJtagLink.Link.DummyScanPacket | src/jtag/drivers/ftdi_cjtag.c:489-492 | one Run-Test/Idle cycle through transitions |
| CJtagLink.Link.SendCheckPacket | src/jtag/drivers/ftdi_cjtag.c:504-518 | writes the 3-byte check packet of the current format |
| CJtagLink.Link.CheckPacket | src/jtag/drivers/ftdi_cjtag.c:529-544 | a dummy scan packet first only in OSCAN1 (the rule of section 21.7 of IEEE Std 1149.7-2009), then the check packet |
| CJtagLink.Link.Send2PartCommand | src/jtag/drivers/ftdi_cjtag.c:394-408 | NZBS(opcode), NZBS(operand), and a check packet only when already in OSCAN1 |
| CJtagLink.Link.EnterOscan1 | src/jtag/drivers/ftdi_cjtag.c:557-575 | the STFMT(OSCAN1) command and a check packet, and only then the switch to OSCAN1 |
| CJtagLink.Link.SetJtagToIdle | src/jtag/drivers/ftdi_cjtag.c:163-175 | the forced-idle string; in OSCAN1 it then recurses exactly once (the inner call runs in normal format) and re-enters two-wire mode; the format and want-result flag end as found |
| CJtagLink.Link.Enter2WireMode | src/jtag/drivers/ftdi_cjtag.c:720-730 | idle, control level 2, OSCAN1 entry and the exit command with want-result off; ends in OSCAN1 with the flag restored |
| CJtagLink.Link.Enter2WireModeAndTest | src/jtag/drivers/ftdi_cjtag.c:587-611 | like enter_2wire_mode but ends with the reconnect string; restores want-result and always returns 1 |
| CJtagLink.Link.Initialise | src/jtag/drivers/ftdi_cjtag.c:84-149 | whatever state it starts in: pin set-up, its one-byte read, the escape sequence, idle and two-wire entry; ends in OSCAN1 with want-result set |
| CJtagLink.Link.ResetGlobals | src/jtag/drivers/ftdi_cjtag.c:89-91 | normal format, want-result 1, ulTxCount 0, no traffic |
| CJtagLink.Link.SendPinsAndEscape | src/jtag/drivers/arc_ftdi_cjtag.c:138-160 | writes the 8-byte pin set-up, reads 1 byte, then writes the 28-byte escape sequence |
| CJtagLink.Link.MoveToState | src/jtag/drivers/ftdi_cjtag.c:827-870 | the TAP state becomes the goal whatever the pair; the tabled string is clocked as OSCAN1 cycles, and nothing for an untabled pair |
| CJtagLink.Link.ExecuteScan | src/jtag/drivers/ftdi_cjtag.c:884-964 | a scan with num_fields ≠ 1 or num_bits+8 > 1000 causes no traffic, no TAP change and no buffer change; otherwise the exact scan traffic, the end state reached, the response stored, and in-bit i is bit 7 of byte i+preamble; bytes past the read count and in-bits past num_bits keep their old values |
| CJtagLink.Link.Scan | src/jtag/drivers/ftdi_cjtag.c:907-963 | an accepted scan: move in, payload, move out, one read of every clocked cycle, decode; the receive buffer past the read count and the in buffer past num_bits keep their old values |
| CJtagLink.Link.MoveIn | src/jtag/drivers/ftdi_cjtag.c:907-921 | the preamble is 0 when already in the shift state, else the move's cycle count, and the TAP is then in the shift state |
| CJtagLink.Link.PayloadAndMoveOut | src/jtag/drivers/ftdi_cjtag.c:923-952 | records the end state, clocks the payload, and moves from Exit1 to the end state, adding the postamble to ulTxCount |
| CJtagLink.Link.SendPayload | src/jtag/drivers/ftdi_cjtag.c:925-944 | one cycle per bit (one even for zero bits), TMS high on the last only, TDI the out bit or low without an out buffer |
| CJtagLink.PayloadLeg | src/jtag/drivers/ftdi_cjtag.c:925-949 | the payload's TMS levels (low on every bit but the last) take the TAP from the shift state to its Exit1 state with no reset, and a DR payload spends exactly one Shift-DR cycle per bit |
| CJtagLink.ScanReachesEndState | src/jtag/drivers/ftdi_cjtag.c:907-952 | when both moves are tabled, the whole scan (preamble, payload, postamble) is preamble+payload+postamble cycles long, takes the TAP from its recorded start to the end state without a reset, and a DR scan shifts exactly num_bits DR bits (one for a zero-bit scan) |
| CJtagLink.UntabledStartLosesTrack | src/jtag/drivers/ftdi_cjtag.c:827-870 | a three-bit DR scan started from Test-Logic-Reset is accepted, but the move into Shift-DR is untabled: the controller ends in Capture-IR instead of Run-Test/Idle and no DR bit is shifted |
| CJtagLink.Link.ReadResponse | src/jtag/drivers/ftdi_cjtag.c:955 | one read of `count` bytes, which land at the start of the receive buffer; the bytes past `count` keep their old values |
| CJtagLink.Link.DecodeCaptured | src/jtag/drivers/ftdi_cjtag.c:957-963 | in-bit i is bit 7 of received byte i+preamble; the in buffer past num_bits keeps its old values |
| ArcRegs.Description | src/target/arc_regs.c:32-103 | rows below 66 are numbered by their position; rows 66 and 67 are lp_start and lp_end (75 and 76); rows 68 to 98 are the zero description with no name |
| ArcRegs.Classify | src/target/arc_regs.c:244-268 | features by range: core_basecase below 26, core_pointers 26-28, core_link 29-31, extension 32-59, 61 and 62, other 60 and 63, aux baseline 64-76, none above 76; `exist` holds exactly below 32, at 60 and at 63-65 |
| ArcRegs.InitialRegFields | src/target/arc_regs.c:227-243 | a built entry is 32 bits of zero, neither valid nor dirty, numbered from its description, with `exist` as classified |
| ArcRegs.U32Bytes | src/target/arc_regs.c:141 | the four little-endian bytes of a word read back as that word |
| ArcRegs.BytesRoundTrip | src/target/arc_regs.c:158-167 | taking the low 32 bits of a buffer and writing them back gives the buffer's first four bytes |
| ArcRegs.GetCoreReg | src/target/arc_regs.c:105-148 | not halted or regnum out of range: an error, no read, no change; a valid entry: Ok, no read, no change; otherwise at most one read, and `reg_list[regnum]` holds the value read (0 for LIMM and reserved), valid and not dirty; nothing else changes |
| ArcRegs.SetCoreReg | src/target/arc_regs.c:150-176 | the same guards with no change on error; on success the entry's buffer is the low 32 bits of `buf`, and `reg_list[regnum]` is valid and dirty; no read and nothing else changes |
| ArcRegs.TableReads | src/target/arc_regs.c:127-133 | LIMM and reserved read nothing; below 60 the core register; 60 and 63 the aux register at their number; pc, status32, lp_start and lp_end their aux addresses; the zero rows core register 0 |
| ArcRegs.GetThenCached | src/target/arc_regs.c:121-125 | below 66, a get leaves the entry valid, and a second get is served from the cache with no read and no change |
| ArcRegs.GetLoopRegsNeverCached | src/target/arc_regs.c:113-143 | a get on row 66 or 67 validates entry 75 or 76 but not its own, so the next get reads the aux register again |
| ArcRegs.SetZeroRowMarksR0 | src/target/arc_regs.c:159-173 | a set on a zero row stores the value in its own entry but marks r0 valid and dirty, r0's value unchanged |
| ArcRegs.SetThenGet | src/target/arc_regs.c:150-176 | below 66, a get after a set is served from the cache and hands back the word set, still dirty |
| ArcRegs.GeneralIndicesExact | src/target/arc_regs.c:301-310 | the general list holds exactly the entries below 66 whose `exist` is set, in strictly ascending order |
| ArcRegs.AccessKeepsGdbList | src/target/arc_regs.c:105-176 | neither get nor set changes the GDB register list of either class, since neither touches an `exist` flag |
| ArcRegs.GeneralListAfterBuild | src/target/arc_regs.c:296-310 | after build the general list is r0-r31, lp_count, pcl, pc and status32: 36 entries |
| ArcRegs.RegCache.Build | src/target/arc_regs.c:194-274 | every entry and description as the build loop leaves them, and no JTAG read |
| ArcRegs.RegCache.Get | src/target/arc_regs.c:105-148 | the arrays and the read log change exactly as GetCoreReg says |
| ArcRegs.RegCache.Set | src/target/arc_regs.c:150-176 | the arrays change exactly as SetCoreReg says |
| ArcRegs.RegCache.GetGdbRegList | src/target/arc_regs.c:277-314 | a fresh 99-slot list whose first `size` slots are all 99 entries in order for REG_CLASS_ALL, else the general list |
| ArcRegs.RegCache.FillAll | src/target/arc_regs.c:296-300 | slot i holds entry i for every i |
| ArcRegs.RegCache.FillGeneral | src/target/arc_regs.c:301-310 | `cur_index` ends as the general list's length and the slots before it hold that list |

## Left out

- The MPSSE transport (`mpsse_write`, `mpsse_read`, `mpsse_write_read`, `mpsse_flush`) is a ghost log of writes and read counts; there is no timing and no failure.
- The bytes that transitions reads back land in `pucRxBuffer` (`ftdi_cjtag.c:296`, `:300`) and nothing reads them there before a scan overwrites them. The model logs only the read's byte count, and Transitions does not modify the receive buffer.
- `LOG_*` calls and the console print functions `arc_regs_print_core_registers` and `arc_regs_print_aux_registers` are not modelled.
- The generic JTAG queue, `bit_copy`, `tap_get_state` and `tap_set_state`: the TAP state is a field and the scan fields are plain sequences.
- The `tdi_value` parameter of transitions and cjtag_transitions is never used by the source, so it is dropped.
- The C `int` and `unsigned long` globals and counters are unbounded naturals; none reaches its width in any reachable call.
- CJtagLink.Link.Transitions: requires its block to fit the 0x100-byte buffer; the source would wrap its `unsigned char` counter instead. ScanSequencesFit shows which call sites stay inside that bound.
- CJtagLink.Link.ExecuteScan: returns a flag saying whether the scan passed the guards; the source returns nothing and only logs the rejection.
- CJtagLink.Link.ExecuteScan: requires an out buffer of at least the payload's length and an in buffer of at least num_bits; the source trusts the JTAG layer for both.
- CJtagLink.Link.ExecuteScan: the adapter's answer to the final read is a 1000-byte parameter.
- CJtagLink.Link.ExecuteScan: the recorded TAP state matches the controller only when both moves are tabled (ScanReachesEndState). From an untabled start such as Test-Logic-Reset, cjtag_move_to_state records the goal without clocking anything, and the source does the same; UntabledStartLosesTrack shows the result.
- CJtagLink.Link.FillCycles: adds its cycles to ulTxCount after the loop rather than once per character; no read happens in between, so nothing can observe the difference.
- The two driver files are modelled once. The arc variant's bound asserts (`arc_ftdi_cjtag.c:377`, `:403`) become the requires of ZeroBitScan and NonZeroBitScan. Its const byte tables equal the inline bytes of the other file.
- ArcRegs.GetCoreReg: ignores the return code of the JTAG read. The source ignores it too, and arc_jtag.c is not part of this model.
- ArcRegs.U32Bytes: `buf_get_u32` and `buf_set_u32` are not part of this model; they are taken to be little-endian over the first four bytes.
- ArcRegs.Status: names the error codes; their numeric values are defined outside the files modelled.
- ArcRegs.RegCache: the `target` and `arc32` back references of `arc_reg_t` and the `reg_cache` list links are left out. The halted state is a parameter of Get and Set.
- ArcRegs.RegCache.GetGdbRegList: returns entry indices rather than references into the cache, and does not model malloc failure.
- arc_cmd.c, arc_ocd.c, arc_jtag.c, arc.c, arc32.c and arc_v2.c are not part of this model: they are command parsing, target orchestration and JTAG wrappers.
