# VoodooSDHC in Dafny

A model of the core of VoodooSDHC, a Mac OS X block-storage driver for SD
Host Controller (SDHCI) chips. The model covers how the driver:

- issues SD commands through the controller's Command register;
- sets the SD clock and bus power;
- initialises a card: the CMD8 / ACMD41 dialogue, CID and CSD decoding, bus width and high speed;
- tracks card presence (`reportMediaState`, `setup`);
- waits on the interrupt status;
- moves blocks with the PIO routines or with SDMA through a 32 KiB bounce buffer;
- serves a block request in `doAsyncReadWrite`.

It also models the constant tables of `SD_Commands.h` and the register layout of
`SDHCI_Register_Map.h`.

The driver object is the class `Controller.Sdhc`. Its fields are the driver's:

- `cardPresence`, `isHighCapacity`, `rca`, `maxBlock`, the per-slot CID table, and the bounce-buffer addresses;
- a `Hardware.RegisterBlock` with one field per written register, at its declared width.

The hardware's side is a `Hardware.Device` value:

- what PresentState, NormalIntStatus, ErrorIntStatus, the Response registers and the data port show on each read;
- whether an SDMA sleep reached its deadline.

The register reads are indexed by a read clock that the driver's methods advance. A ghost trace records, in order:

- the commands issued;
- the resets;
- the copies between the bounce buffer and the request buffer.

The PIO routine runs of a request are not in the trace: the methods return them as a ghost list of `Transfer` events, and the trace holds the commands each run issued (`LoopCmds`).

A second ghost log records the transfer lock and the completion calls of `doAsyncReadWrite`.

Each loop of the driver is a `while` loop in a method. Each method is proved
against a function of the hardware that says how the loop ends:

| loop | function |
|---|---|
| waitIntStatus | `FirstHit` |
| the bounded polls | `Poll` |
| the block waits | `BlockWaits` |
| the ACMD41 rounds | `LegacyRounds`, `HcsRounds` |
| the SDMA loop | `SdmaWait` |
| the request loop | `RunLoop` over `Plan` |

Lemmas then state what those functions mean.

The values of the `sdhci.h` constants (`SDHCI_TRNS_*`, `SDHCI_CTRL_*`,
`SDHCI_SPACE_AVAILABLE`) are not known here; they are the fields of
`Platform.HostDefs`, and every property holds for any values of them. The
compile-time switches (`USE_SDMA`, `USE_MULTIBLOCK`, `WIDE_BUS_MODE`,
`HIGHSPEED_CARD_MODE`, `READONLY_DRIVER`, `NO_RESET_WAR`) are the fields of
`Platform.Config`; `Platform.Shipped` holds their shipped values, and every
property holds for all of them.

The driver class runs `calcClock` and `parseCSD` as they are written: the clock
divisor is masked with 0xFF000 (`ClockPower.ClockWord`), and the version 2.0 CSD
branch is decoded as the code decodes it (`CsdRegister.ParseCsdAsWritten`). What
these do wrong is stated under "## Findings". The corrected definitions
(`ClockPower.IntendedClockWord`, `CsdRegister.ParseCsd`) stand beside them, with
the intended properties proved about them.

Two quirks are modelled as written and are not findings:

- `parseCID` casts before it shifts, so MID, PRV and MDT are always zero (`CardRegisters.ParseCid`).
- The standard-capacity byte address `block * 512` wraps past 4 GiB (`Transfer.StandardAddressWraps`).

## Model

| member | source | states |
|---|---|---|
| SdCommands.Code | SD_Commands.h:333-342 | the response-kind codes R0..R7 are 0..9 |
| SdCommands.KindOf | SD_Commands.h:333-342 | a code names a response kind exactly when it is at most 9, and then decodes to it |
| SdCommands.CodeRoundTrip | SD_Commands.h:333-342 | decoding a kind's code gives the kind back, and distinct kinds have distinct codes |
| SdCommands.DriverCommandKinds | SD_Commands.h:344-472 | the SDCR/SDACR tables give the response kind of every command the driver sends (R0 for CMD0, R2 for CMD2/9, R6 for CMD3, R1b for CMD7, R7 for CMD8, R3 for ACMD41, R1 for the data commands, R0 for CMD23/ACMD23) |
| SdCommands.NamedCodes | SD_Commands.h:344-472 | each SDCRn/SDACRn name the driver uses is the code of the kind the table gives command n |
| SdCommands.LongResponses | SD_Commands.h:344-407 | exactly CMD2, CMD9 and CMD10 have a 136-bit R2 response; only ACMD41 has R3; no plain command has R3, R4, R5 or R5b |
| SdCommands.R1Status | SD_Commands.h:123 | R1_STATUS keeps bits 31:13 of the card status and clears the rest |
| SdCommands.R1CurrentState | SD_Commands.h:124 | R1_CURRENT_STATE is the 4-bit field 12:9 |
| SdCommands.R1StatusKeepsFlags | SD_Commands.h:104-126 | R1_STATUS keeps every error flag 31:13, and drops READY_FOR_DATA, APP_CMD and the state field |
| SdCommands.ErrorMasks | VoodooSDHC.cpp:421 | the bus-width check 0x480000 is ILLEGAL_COMMAND and ERROR; the SDMA response masks 0xCFF80000 and 0xEFF80000 are the read and write error flags; the write mask adds BLOCK_LEN_ERROR but not ERASE_SEQ_ERROR |
| SdCommands.IfCondVoltage | SD_Commands.h:291-297 | the SEND_IF_COND voltage field is bits 11:8 |
| SdCommands.IfCondPattern | SD_Commands.h:291-297 | the SEND_IF_COND check pattern is bits 7:0 |
| SdCommands.Arguments | VoodooSDHC.cpp:331-360 | CMD8's argument 0x1AA asks for 2.7-3.6 V with pattern 0xAA; the ACMD41 window 0x00FF8000 covers 2.7-3.6 V; 0x40FF8000 adds the HCS bit |
| SdCommands.SwitchArgument | VoodooSDHC.cpp:440 | the CMD6 argument 0x01FFFFF1 checks high-speed access in group 1 and leaves groups 2-6 unchanged |
| RegisterMap.LayoutIsPacked | SDHCI_Register_Map.h:4-40 | the packed register structure starts at 0, each field starts where the one before it ends, the reserved array ends at 0xFC, and the block is 256 bytes |
| RegisterMap.FieldsAligned | SDHCI_Register_Map.h:4-40 | every register lies inside the 256 bytes at an offset aligned to its width |
| RegisterMap.BaseClockMHz | SDHCI_Register_Map.h:101 | the base clock is Capabilities bits 13:8, below 64 MHz |
| RegisterMap.PowerCodes | SDHCI_Register_Map.h:70-74 | HC3v3, HC3v0 and HC1v8 select 3.3 V, 3.0 V and 1.8 V; HC3v0 already carries SD Bus Power |
| RegisterMap.ResetBits | SDHCI_Register_Map.h:114-117 | FULL/CMD/DAT reset are the distinct single bits 1, 2 and 4 |
| RegisterMap.StatusBits | SDHCI_Register_Map.h:119-129 | the NormalIntStatus bits are distinct single bits; ErrorInterrupt, BaseClockMask, ComInhibitCMD, CardInserted and WPSwitchLevel have their register positions |
| CommandWord.ResponseFlags | VoodooSDHC.cpp:555-586 | a known response code gets flags only in bits 4:3 and 1:0; an unknown code passes through unchanged |
| CommandWord.WordMeaning | VoodooSDHC.cpp:543-616 | the Command word carries the command index in bits 13:8, type 0, the response shape the kind calls for, and Data Present exactly for the four data commands |
| CommandWord.FlagsMeaning | VoodooSDHC.cpp:555-586 | the switch's flags are the kind's response type, CRC check and index check |
| CommandWord.UnknownCodePassesThrough | VoodooSDHC.cpp:555-586 | an unknown response code is ORed into the word unchanged |
| CommandWord.TransferModeFor | VoodooSDHC.cpp:592-610 | SDCommand writes TransferMode exactly for the multi-block read and write commands, with the read or write mode |
| CommandWord.WriteModeBits | VoodooSDHC.cpp:602-610 | the multi-block mode carries MULTI, BLK_CNT_EN, ACMD12 and, with USE_SDMA, DMA |
| CommandWord.ReadModeIsWriteModeRead | VoodooSDHC.cpp:592-610 | the read mode is the write mode plus TRNS_READ |
| ClockPower.BaseClockHz | VoodooSDHC.cpp:633-634 | the base clock in Hz is a whole number of MHz below 64 MHz |
| ClockPower.SmallestDivisorMeaning | VoodooSDHC.cpp:640 | the divisor search ends at the smallest power of two that brings the base clock down to the request |
| ClockPower.ClockDivisor | VoodooSDHC.cpp:640 | the doubling loop computes exactly that smallest divisor |
| ClockPower.DriverDivisorsFit | VoodooSDHC.cpp:640 | for the driver's requests (400 kHz, 25 MHz, 50 MHz) the divisor is at most 256 |
| ClockPower.DivisorFieldDivides | VoodooSDHC.cpp:646-648 | with the corrected mask the frequency-select field makes the controller divide the base clock by the divisor |
| ClockPower.DivisorFieldSelects | VoodooSDHC.cpp:646-648 | the corrected field selects the divisor back |
| ClockPower.ClockNotAboveRequest | VoodooSDHC.cpp:625-650 | with the corrected mask the SD clock never exceeds the requested speed |
| ClockPower.DivisorFieldAsWrittenDrops | VoodooSDHC.cpp:646 | the mask as written zeroes the field for divisors 2 to 16 and agrees with the corrected field from 32 up |
| ClockPower.ClockMaskCounterexample | VoodooSDHC.cpp:646 | with a 50 MHz base clock, a 25 MHz request runs the card at 50 MHz as written and at 25 MHz when corrected |
| ClockPower.ClockControlWord | VoodooSDHC.cpp:631-648 | the final Clock Control word keeps the divisor field in its high byte and has Internal Clock Enable and SD Clock Enable set |
| ClockPower.IntendedWordProgrammed | VoodooSDHC.cpp:625-650 | corrected: the word with the 0xFF00 mask enables both clocks and selects the smallest power-of-two divisor, at most 256, that brings the base clock down to the request; the card clock never exceeds the request |
| ClockPower.ClockWordAsWritten | VoodooSDHC.cpp:625-650 | the word calcClock writes enables both clocks; for the divisors 1 and 32 to 256 it is the intended word; for 2 to 16 its frequency select is 0, so the card runs at the base clock, above the request; it programs the clock as intended exactly for the divisors 1 and 32 up |
| ClockPower.ClockWordCounterexample | VoodooSDHC.cpp:646 | with Capabilities 0x3200 (a 50 MHz base clock) and a 25 MHz request, calcClock writes 0x0005 where the intended word is 0x0105, and the word written does not program the request |
| ClockPower.PowerControlValue | VoodooSDHC.cpp:658-673 | powerSD selects the highest voltage Capabilities supports and turns on SD Bus Power |
| CardRegisters.ParseCid | VoodooSDHC.cpp:679-694 | the product name has 6 bytes ending in 0; MID, PRV and MDT come out zero because the casts precede the shifts |
| CardRegisters.CidOid | VoodooSDHC.cpp:681 | OID is bits 15:8 of Response[3] |
| CardRegisters.CidPnm | VoodooSDHC.cpp:682-687 | the product name is five response bytes and a terminating zero |
| CardRegisters.CidEqualIff | VoodooSDHC.cpp:679-694 | two responses decode to the same CID exactly when they agree on the bits parseCID reads; this is the comparison setup makes |
| CardRegisters.CidDependsOnly | VoodooSDHC.cpp:679-694 | responses that agree on those bits decode alike |
| CsdRegister.ParseCsdAsWritten | VoodooSDHC.cpp:700-725 | parseCSD as written: a new 32-bit maxBlock for structure 0 or 1, none for 2 or 3 |
| CsdRegister.ParseCsd | VoodooSDHC.cpp:700-725 | corrected parseCSD: same cases, equal to the original for version 1.0 CSDs |
| CsdRegister.CsdV1Fields | VoodooSDHC.cpp:704-707 | the version 1.0 field extraction reads back READ_BL_LEN, C_SIZE and C_SIZE_MULT from a response holding them |
| CsdRegister.V1Arithmetic | VoodooSDHC.cpp:708-710 | for blocks of at least 512 bytes the version 1.0 formula is the capacity in 512-byte blocks minus one |
| CsdRegister.CsdV1RoundTrip | VoodooSDHC.cpp:702-711 | a version 1.0 CSD with a block length of 512 to 2048 bytes decodes to the number of its last 512-byte block |
| CsdRegister.CsdV1ShortBlocks | VoodooSDHC.cpp:708-710 | with blocks shorter than 512 bytes the formula gives 0xFFFFFFFF |
| CsdRegister.CsdV2Fields | VoodooSDHC.cpp:713-719 | C_SIZE is read back from CSD bits 69:48 of a version 2.0 response |
| CsdRegister.CsdV2RoundTrip | VoodooSDHC.cpp:713-719 | corrected: a version 2.0 CSD decodes to its last 512-byte block, (C_SIZE + 1) * 1024 - 1 |
| CsdRegister.CsdV2CountNotLast | VoodooSDHC.cpp:718 | as written, C_SIZE 0 gives 1024, the block count, while the last block is 1023 |
| CsdRegister.CsdV2SizeBytes | VoodooSDHC.cpp:715-718 | as written, C_SIZE 0x3B37 gives 0x3B01 * 1024 instead of 0x3B38 * 1024 - 1 |
| Transfer.U32 | VoodooSDHC.cpp:1620 | the 32-bit counters are values modulo 2^32 |
| Transfer.CardAddress | VoodooSDHC.cpp:1014 | the block argument is below 2^32 |
| Transfer.CardAddressRoundTrip | VoodooSDHC.cpp:1014 | a high-capacity card gets the block; a standard card gets its byte address, which gives the block back below 4 GiB |
| Transfer.StandardAddressWraps | VoodooSDHC.cpp:1014 | block 2^23 of a standard card is sent as byte address 0 |
| Transfer.BounceWindow | VoodooSDHC.cpp:145-148 | start() moves the bounce buffer up to the next 32 KiB boundary, by a whole 32 KiB when already aligned, and it stays inside the 64 KiB allocation |
| Transfer.SdmaBlockSizeFields | VoodooSDHC.cpp:1093 | the SDMA Block Size word is 512-byte blocks with the 32 KiB boundary code 3 |
| Transfer.WordRoundTrip | VoodooSDHC.cpp:69-75 | a data-port word split into little-endian bytes and reassembled is unchanged |
| Transfer.BytesRoundTrip | VoodooSDHC.cpp:69-75 | four bytes assembled into a word and split again are unchanged |
| Transfer.WordsOfBytes | VoodooSDHC.cpp:69-75 | words to bytes to words is the identity |
| Transfer.BytesOfWords | VoodooSDHC.cpp:1335-1338 | bytes to words to bytes is the identity |
| Transfer.PortWords | VoodooSDHC.cpp:69-75 | read_block_pio reads `count` successive data-port words |
| Transfer.ChunkSize | VoodooSDHC.cpp:1651 | MIN(2048, n) is between 1 and 2048 when n > 0 |
| Transfer.MultiChunksTile | VoodooSDHC.cpp:1652-1659 | the multi-block transfers of a request tile it: consecutive, 1 to 2048 blocks each, each at card block `block + offset` |
| Transfer.SingleStepsTile | VoodooSDHC.cpp:1660-1666 | the single-block transfers tile the request, one per block |
| Transfer.ReadCopiesTile | VoodooSDHC.cpp:1137-1151 | the SDMA read copies go to consecutive 32 KiB offsets, and the final copy ends at `nblks * 512` |
| Transfer.FillsContiguous | VoodooSDHC.cpp:1071-1074 | the SDMA write fills of the bounce buffer are consecutive reads of the request from the start offset, none past its end |
| Transfer.PollMeaning | VoodooSDHC.cpp:1221-1245 | a bounded poll ends Ready only when its last read shows the condition, Failed only after the error bit, Expired only after all 1100011 tries; every earlier try saw neither |
| Transfer.FirstHit | VoodooSDHC.cpp:942-959 | waitIntStatus stops at a read showing the error bit or a mask bit |
| Transfer.FirstHitIsFirst | VoodooSDHC.cpp:942-959 | no earlier read shows either |
| Hardware.OverwriteMeaning | VoodooSDHC.cpp:1033 | writeBytes replaces exactly the bytes at the offset and keeps the rest |
| Hardware.ClipMeaning | VoodooSDHC.cpp:1302 | readBytes returns the bytes from the offset, cut short at the end of the buffer |
| Hardware.IoBuffer.WriteBytes | VoodooSDHC.cpp:1033 | the request buffer after writeBytes |
| Hardware.IoBuffer.ReadBytes | VoodooSDHC.cpp:1302 | the bytes readBytes returns |
| Initialization.BusyReads | VoodooSDHC.cpp:332-337 | counts the reads during which the CMD line stays busy, up to the bound |
| Initialization.LineWaitReads | VoodooSDHC.cpp:332-337 | the wait after CMD8 reads PresentState 1 to 100 times; all but the last show the line busy, and the last shows it free unless all 100 were used |
| Initialization.LegacyCardAt | VoodooSDHC.cpp:339 | the legacy path is taken exactly when the read after the wait shows the CMD line busy |
| Initialization.LegacyRounds | VoodooSDHC.cpp:344-348 | the legacy ACMD41 loop runs until the first response with the power-up bit |
| Initialization.HcsRounds | VoodooSDHC.cpp:352-363 | the version 2.00 loop stops at the first powered-up response or after 80 rounds |
| Initialization.OpCondPhaseMeaning | VoodooSDHC.cpp:330-381 | the ACMD41 phase sends at least one round; the legacy path is taken exactly after a busy CMD line and always ends ready; the version 2.00 path sends at most 80 rounds, all 80 when the card never powers up |
| Initialization.OpCondRounds | VoodooSDHC.cpp:344-361 | each round is APP_CMD then APP_OP_COND with the round's argument |
| Initialization.RcaArgRoundTrip | VoodooSDHC.cpp:389 | `RCA << 16` is the upper half of the SET_RELATIVE_ADDR response |
| Initialization.SetBits8 | VoodooSDHC.cpp:422 | `HostControl \|= bits` sets the bits and keeps the others |
| Media.MediaStep | VoodooSDHC.cpp:781-806 | a report never leaves Remount; from Remount it reports a change and no card; otherwise it reports a change exactly when the stored state disagrees with Card Inserted, and then agrees with it; it initialises exactly a newly seen card |
| Media.MediaSettles | VoodooSDHC.cpp:781-806 | with the card left alone, after two reports the state agrees with the card and the next report sees no change |
| PioRuns.BlockWaitsMeaning | VoodooSDHC.cpp:1023-1033 | a run of block waits lets through exactly the blocks before its first failing wait |
| PioRuns.MultiReadRunMeaning | VoodooSDHC.cpp:972-1043 | readBlockMulti_pio succeeds exactly when the command wait and every block wait succeed, whatever the transfer-complete wait shows; a failed read moved the blocks before the first failing wait |
| PioRuns.SingleReadRunMeaning | VoodooSDHC.cpp:1181-1261 | readBlockSingle_pio succeeds only after a read showing Buffer Read Ready, and fails only after the error bit or 11 passes of 100001 tries |
| PioRuns.SingleWriteRunMeaning | VoodooSDHC.cpp:1384-1473 | writeBlockSingle_pio sends its block exactly when the first poll succeeds, and succeeds exactly when both polls do |
| PioRuns.MultiWriteRunMeaning | VoodooSDHC.cpp:1274-1372 | writeBlockMulti_pio succeeds exactly when every Space Available wait and the final poll succeed; a write stopped short sent the blocks before the failing wait |
| PioRuns.ReadIntoPlaces | VoodooSDHC.cpp:1023-1033 | block j read from the data port lands at `(offset + j) * 512` in the request buffer, and no other byte changes |
| PioRuns.StagedWordsAreBuffer | VoodooSDHC.cpp:1302-1340 | the words a multi-block write sends are exactly the request's bytes from `offset * 512` |
| Requests.Plan | VoodooSDHC.cpp:1640-1708 | every transfer of a request's plan is in the request's direction and of one kind |
| Requests.PlanTiles | VoodooSDHC.cpp:1640-1708 | the plan tiles the request from offset 0 to `nblks`, with one transfer per block when multi-block is off or `nblks <= 1` |
| Requests.PlanStep | VoodooSDHC.cpp:1649-1664 | each pass takes MIN(2048, n) or one block at card block `block + done` |
| Requests.NextOffset | VoodooSDHC.cpp:1652-1656 | the 32-bit `blk - block` is the number of blocks done, and `blk += b` keeps `blk == block + done` modulo 2^32 |
| Requests.NextIsPlanned | VoodooSDHC.cpp:1649-1664 | the transfer a pass builds from `blk` and `n` is the next one of the plan; it moves between 1 and `n` blocks, and `blk` advanced by it is `block` plus the blocks now done, modulo 2^32 |
| Requests.RoutineStatus | VoodooSDHC.cpp:972-1473 | a PIO routine returns success or error, never a timeout or a missing medium |
| Requests.RunLoopMeaning | VoodooSDHC.cpp:1640-1708 | the loop runs a prefix of the plan: all of it on success; otherwise it ends with the failing transfer and reports an error |
| Requests.ReachesNext | VoodooSDHC.cpp:1640-1708 | after one more transfer the loop either goes on with the rest or has ended with that transfer's status |
| Requests.PassAdvances | VoodooSDHC.cpp:1649-1665 | one pass of the loop decreases `n`; it keeps the loop's state on success and ends the loop with the transfer's status otherwise |
| Requests.PassCarries | VoodooSDHC.cpp:1649-1665 | one pass carries the request buffer and the data port as the loop over the plan does: on success the rest of the plan goes on from the pass's data path; on failure the loop's data path is what the pass left |
| Requests.DataNext | VoodooSDHC.cpp:1649-1665 | the data path after the loop over one transfer and then the rest: what the transfer left when it failed, otherwise the rest's loop from there |
| Requests.LoopMoves | VoodooSDHC.cpp:1640-1707 | a transfer loop that succeeds leaves the request buffer and the data port as its transfers do, each moving all its blocks |
| Requests.MovesByDirection | VoodooSDHC.cpp:1640-1707 | the transfers of one request are all reads or all writes, so they move the data path as reads or as writes do |
| Requests.ReadMovesFill | VoodooSDHC.cpp:1649-1663 | reads that cover blocks `done` to `nblks` in turn, whatever their chunking, leave the buffer as one long read of those blocks would |
| Requests.WriteMovesSend | VoodooSDHC.cpp:1694-1705 | writes that cover blocks `done` to `nblks` in turn send the request's bytes of those blocks after the words already sent, and leave the buffer and the reads alone |
| Requests.CompletedReadFills | VoodooSDHC.cpp:1640-1665 | a read request whose loop succeeded put data port block `j` at block `j` of the request buffer for every block of the request, read 128 words per block and wrote none |
| Requests.CompletedWriteSends | VoodooSDHC.cpp:1694-1707 | a write request whose loop succeeded sent to the data port, after the words already there, exactly the request's `nblks * 512` bytes in order, and read nothing |
| Requests.PlanDone | VoodooSDHC.cpp:1640-1708 | when `n` reaches 0 the loop has run the whole plan with success |
| Requests.CompletedCoversRequest | VoodooSDHC.cpp:1640-1708 | a successful loop moved the request whole: the transfers it ran tile `block .. block + nblks` |
| SdmaRuns.SdmaWaitEnds | VoodooSDHC.cpp:1123-1165 | the SDMA loop ends with success only on Transfer Complete, with a timeout only when a sleep reached its deadline, and with an error only on the error bit |
| SdmaRuns.SdmaWaitRounds | VoodooSDHC.cpp:1123-1158 | every round of the SDMA loop before its last saw neither the error bit, a deadline nor transfer complete, and each DMA interrupt it served took a round of its own |
| SdmaRuns.ReadCountersStep | VoodooSDHC.cpp:1146-1148 | `offset += 64` and `nblks -= 64` keep offset and blocks left at `64 * k` and `nblks - 64 * k` in 32 bits |
| SdmaRuns.SdmaPhaseMeaning | VoodooSDHC.cpp:1104-1170 | sdma_access succeeds exactly when the command completes, the response has no error flag and the loop sees Transfer Complete; it times out on a failed command wait or a deadline; otherwise it fails on an error bit or the response; never NoMedia |
| SdmaRuns.SdmaNeverNoMedia | VoodooSDHC.cpp:1054-1170 | sdma_access returns success, a timeout or an error, never a missing medium |
| SdmaRuns.SdmaReadCovers | VoodooSDHC.cpp:1130-1151 | when the controller interrupts at most once per full bounce buffer of a request below 4 GiB, the copies of a successful SDMA read cover the request in order: copy i starts at i * 32 KiB and the last ends at `nblks * 512` |
| SdmaRuns.SdmaWriteFills | VoodooSDHC.cpp:1071-1074 | the bounce-buffer fills of an SDMA write start at byte 0, are consecutive, and never read past the request |
| SdmaRuns.RetriedCons | VoodooSDHC.cpp:1643-1645 | a timed-out attempt made before attempts that were retried only after timeouts keeps the record one of attempts retried only after timeouts |
| SdmaRetries.RetriesFrom | VoodooSDHC.cpp:1642-1648 | the retry loop makes at least one and at most as many attempts as it has tries, each with the read clock and command count it started at |
| SdmaRetries.RetriesNext | VoodooSDHC.cpp:1643-1645 | after an attempt that timed out with tries left, the loop ends at the same clock, command count, presence and status as the loop started where that attempt and its recovery left the driver |
| SdmaRetries.RetriesShape | VoodooSDHC.cpp:1643-1645 | the first attempt starts where the loop does, each attempt is the call made from where it started, and every attempt but the last timed out |
| SdmaRetries.RetriesStop | VoodooSDHC.cpp:1643-1645 | the loop stops before using all its tries only after an attempt that did not time out |
| SdmaRetries.RetriesChained | VoodooSDHC.cpp:1643-1645 | each attempt after the first starts at the read clock and command count the one before left, and the loop leaves the clock and count where its last attempt did |
| SdmaRetries.RetriesPresence | VoodooSDHC.cpp:1105-1113 | the loop marks the card for remount exactly when the recovery after one of its attempts failed, and otherwise keeps the presence |
| SdmaRetries.RetriesPass | VoodooSDHC.cpp:1643-1645 | one pass of the retry `for` loop: an attempt that did not time out, or the last one, leaves the driver where the whole loop ends with its status and all its commands sent; otherwise the loop goes on from where the attempt left, with one try fewer |
| Controller.FullResets | VoodooSDHC.cpp:217-219 | `k` slots of setup without a card add `k` full resets |
| Controller.CapacityAfter | VoodooSDHC.cpp:700-725 | maxBlock after parseCSD is the value parseCSD as written decodes for CSD structure 0 or 1, and is unchanged for 2 or 3; either way it is the old value or a 32-bit one |
| Controller.InitHostControlBits | VoodooSDHC.cpp:421-451 | the Host Control value after cardInit keeps the old bits, turns the LED on, has the 4-bit bus bit when the switch was accepted, and has the high-speed bit when that mode is built |
| Controller.AssembledIsWord | VoodooSDHC.cpp:588-614 | the word SDCommand assembles is the Command word of `CommandWord.Word` |
| Controller.RetriedAttempts | VoodooSDHC.cpp:1642-1648 | the SDMA retry loop with SDMA_RETRY_COUNT tries: the first attempt at the loop's start, each attempt the `SdmaPhase` of sdma_access from its start, all but the last timed out, fewer than the maximum only when the last did not, and the presence kept or turned to Remount |
| Controller.ShapedAttempts | VoodooSDHC.cpp:1643-1644 | the attempts of the retry loop are the sdma_access runs `SdmaPhase` describes, each from its own start |
| Controller.RetriedSends | VoodooSDHC.cpp:1054-1170 | the retry loop's commands are its attempts' in order, and each attempt sends the set-up for the whole request from card block `block`, with the addressing it started with, then its recovery or its copies |
| Controller.LoopCmdsExtend | VoodooSDHC.cpp:1649-1665 | one more PIO routine run appends its reset work-around and block commands to the trace and its commands to the count |
| Controller.LoopCmdsMeaning | VoodooSDHC.cpp:1640-1707 | the commands of the PIO routine runs: none for no runs; per run two resets unless NO_RESET_WAR, plus at least one command of its routine; the last command is the block command of the last run at that run's card address |
| Controller.Sdhc.constructor | VoodooSDHC.cpp:145-151 | start(): no card present, empty logs, and the bounce buffer on the 32 KiB boundary |
| Controller.Sdhc.IsCardPresent | VoodooSDHC.cpp:462-464 | present exactly when the PresentState read shows Card Inserted |
| Controller.Sdhc.IsCardWP | VoodooSDHC.cpp:470-476 | write-protected always in a read-only build, otherwise exactly when the Write Protect Switch level is low |
| Controller.Sdhc.Reset | VoodooSDHC.cpp:518-532 | a command or data reset is issued as asked, any other type as a full reset, and the Software Reset register reads 0 afterwards |
| Controller.Sdhc.ResetWar | VoodooSDHC.cpp:985-990 | without NO_RESET_WAR the routines first reset the command and data lines; with it, nothing happens |
| Controller.Sdhc.SdCommand | VoodooSDHC.cpp:543-617 | the argument and the Command word are written, and TransferMode is set for exactly the multi-block commands; one command is added to the trace |
| Controller.Sdhc.CalcClock | VoodooSDHC.cpp:625-650 | Clock Control ends as `ClockWord`, the word calcClock writes: both clocks enabled and the loop's divisor shifted into place and masked with 0xFF000 (what that word does is ClockWordAsWritten) |
| Controller.Sdhc.PowerSd | VoodooSDHC.cpp:658-673 | Power Control ends as the value for the highest supported voltage with power on |
| Controller.Sdhc.ParseCid | VoodooSDHC.cpp:679-694 | only the slot's CID entry changes, to the decoded response |
| Controller.Sdhc.ParseCsd | VoodooSDHC.cpp:700-725 | maxBlock becomes the capacity parseCSD as written decodes from the response, or is unchanged for an unknown structure |
| Controller.Sdhc.WaitIntStatus | VoodooSDHC.cpp:942-959 | it stops at the first read showing the error bit or a mask bit; it returns true exactly when that read has no error bit, and then writes back the status it read ORed with the mask |
| Controller.Sdhc.PollFor | VoodooSDHC.cpp:1221-1245 | the cnt/pass loop computes exactly the bounded poll `Poll` |
| Controller.Sdhc.WaitCmdLine | VoodooSDHC.cpp:332-339 | the CMD-line wait reads PresentState as `LineWaitReads` says, and chooses the legacy path exactly as `LegacyCard` says |
| Controller.Sdhc.OpCondLegacy | VoodooSDHC.cpp:344-348 | the legacy loop sends the rounds `LegacyRounds` counts |
| Controller.Sdhc.OpCondHcs | VoodooSDHC.cpp:352-369 | the version 2.00 loop sends the rounds `HcsRounds` counts and is ready exactly when the last response has the power-up bit |
| Controller.Sdhc.OpCondStage | VoodooSDHC.cpp:330-381 | the ACMD41 phase is `OpCondPhase`; the card is high-capacity exactly when a version 2.00 card got ready with CCS set |
| Controller.Sdhc.NameCard | VoodooSDHC.cpp:383-389 | ALL_SEND_CID into the slot's CID entry, SET_RELATIVE_ADDR, the 25 MHz clock, and the RCA from the upper half of the response; two commands, the transfer mode kept |
| Controller.Sdhc.SelectCard | VoodooSDHC.cpp:393-403 | SEND_CSD and SELECT_CARD to the card at the RCA, maxBlock from the CSD as parseCSD decodes it; two commands |
| Controller.Sdhc.Identify | VoodooSDHC.cpp:383-404 | ALL_SEND_CID, SET_RELATIVE_ADDR, SEND_CSD and SELECT_CARD set the CID, the RCA (the response's upper half), maxBlock and the 25 MHz clock |
| Controller.Sdhc.SetBusWidth | VoodooSDHC.cpp:411-433 | the 4-bit bus is switched on exactly when the response has neither ERROR nor ILLEGAL_COMMAND; otherwise command and data resets follow |
| Controller.Sdhc.SetHighSpeed | VoodooSDHC.cpp:435-444 | CMD6, then the 50 MHz clock and the high-speed bit |
| Controller.Sdhc.Configure | VoodooSDHC.cpp:406-451 | the bus-width and high-speed steps of the build, then 512-byte blocks, a count of one, and the LED bit |
| Controller.Sdhc.StartCard | VoodooSDHC.cpp:326-381 | the 400 kHz clock, power, CMD0 and CMD8, then the ACMD41 phase |
| Controller.Sdhc.FinishCard | VoodooSDHC.cpp:383-455 | a ready card is identified and configured (`Configured`) |
| Controller.Sdhc.FinishIfReady | VoodooSDHC.cpp:369-455 | after a phase that did not get ready nothing more happens; after a ready one the card is identified and configured; either way the state is `InitOutcome` of the phase |
| Controller.Sdhc.CardInit | VoodooSDHC.cpp:324-456 | cardInit goes through the ACMD41 phase `OpCondPhase` from its first read and returns true exactly when it ended ready; bus power is on and isHighCapacity is the CCS bit of a ready version 2.00 card (`InitOutcome`); a card that never got ready leaves the 400 kHz clock, the CID table and maxBlock as they were and only the start and APP_OP_COND commands in the trace; a ready one gets the decoded ALL_SEND_CID response as its CID entry, the RCA, the capacity, the full-speed clock, 512-byte blocks and the Host Control bits, as `Configured` says; the clock ends after the CMD-line wait and the command count is `InitIssued` |
| Controller.Sdhc.ReadPortBlock | VoodooSDHC.cpp:69-75 | 128 successive data-port words are read |
| Controller.Sdhc.WritePortBlock | VoodooSDHC.cpp:1335-1338 | the block's 128 words are written to the data port in order |
| Controller.Sdhc.ReadBlocks | VoodooSDHC.cpp:1023-1033 | the block loop of readBlockMulti_pio runs the waits `BlockWaits` describes and places every block it reads |
| Controller.Sdhc.StartMultiRead | VoodooSDHC.cpp:985-1016 | readBlockMulti_pio's set-up: the reset work-around, the interrupt enables and clears, the timeout, 512-byte blocks, the 16-bit block count, the transfer mode and READ_MULTIPLE_BLOCK at the card address (`ReadPrepared`) |
| Controller.Sdhc.ReadBlockMultiPio | VoodooSDHC.cpp:972-1043 | readBlockMulti_pio sets up the registers, issues CMD18 at the card address, and ends as `MultiReadRun` says, with the blocks it read placed in the request buffer |
| Controller.Sdhc.ReadBlockSinglePio | VoodooSDHC.cpp:1181-1261 | readBlockSingle_pio issues CMD17 and ends as `SingleReadRun` says, returning the block read on success and leaving the clear-all status |
| Controller.Sdhc.WriteBlockSinglePio | VoodooSDHC.cpp:1384-1473 | writeBlockSingle_pio issues CMD24 and ends as `SingleWriteRun` says, sending the request's block at the offset |
| Controller.Sdhc.WriteBlocks | VoodooSDHC.cpp:1300-1341 | the block loop of writeBlockMulti_pio sends the request's blocks, as far as the Space Available waits let it |
| Controller.Sdhc.WriteBlockMultiPio | VoodooSDHC.cpp:1274-1372 | writeBlockMulti_pio issues APP_CMD, SET_WR_BLK_ERASE_COUNT with the block count, and CMD25 WRITE_MULTIPLE_BLOCK at the card address with response code SDCR24 (the code the driver passes), then ends as `MultiWriteRun` says |
| Controller.Sdhc.StartSdma | VoodooSDHC.cpp:1065-1101 | sdma_access's set-up: the first bounce-buffer fill for a write, timeouts, interrupt enables, the bounce buffer address, the Block Size word and the count, then the multi-block command |
| Controller.Sdhc.SdmaLoop | VoodooSDHC.cpp:1123-1165 | the SDMA wait loop ends as `SdmaWait` says, with the copies `SdmaCopies` lists |
| Controller.Sdhc.SdmaRound | VoodooSDHC.cpp:1125-1157 | one round of the SDMA wait loop either keeps the loop invariant `SdmaGoing` with the clock advanced, or ends the loop as `SdmaWait` says, with the copies made so far |
| Controller.Sdhc.SdmaNext | VoodooSDHC.cpp:1143-1156 | a round of the SDMA loop that goes on, serving a DMA interrupt when there is one (the copy, the advanced offset and count, the bounce-buffer address written again), keeps the loop invariant `SdmaGoing`, so the loop still ends as `SdmaWait` says |
| Controller.Sdhc.ResetAndInit | VoodooSDHC.cpp:1108-1109 | a full reset, then cardInit(0) through `OpCondPhase` from that read, with the outcome `InitOutcome` states after the trace with the reset in it; true exactly when the card got ready; the clock and command count cardInit ends at |
| Controller.Sdhc.Recover | VoodooSDHC.cpp:1105-1113 | after a command timeout: a full reset and cardInit(0) through `OpCondPhase` with its whole outcome (`Recovered`); the card is marked for remount exactly when that init fails, and otherwise keeps its state; the clock and command count cardInit ends at |
| Controller.Sdhc.RecoverThenDisable | VoodooSDHC.cpp:1105-1113 | the recovery, with its outcome, clock and command count as for Recover, then both interrupt signal enables are 0 |
| Controller.Sdhc.SdmaCmdFailed | VoodooSDHC.cpp:1105-1113 | after a failed command wait, sdma_access ends with a timeout and the state of the recovery (`SdmaOver`) |
| Controller.Sdhc.SdmaAfterCommand | VoodooSDHC.cpp:1104-1170 | once CMD18/CMD25 is issued, sdma_access ends as `SdmaPhase` says, in the state `SdmaOver` describes |
| Controller.Sdhc.SdmaAccess | VoodooSDHC.cpp:1054-1170 | sdma_access ends as `SdmaPhase` says from its first read and the response to its own command, and always leaves the interrupt signals disabled; after a command timeout the state is that of a full reset and cardInit(0) (`Recovered`, with remount exactly when it fails); otherwise the trace holds the reset work-around, the first fill of a write, CMD18 or CMD25 at the card address and the copies `SdmaCopies` lists; either way it leaves the clock, command count and presence `LeftAfter` names |
| Controller.Sdhc.SdmaAttempt | VoodooSDHC.cpp:1643-1644 | one sdma_access call of the retry loop is the attempt `SdmaPhase` describes, returns its status (never NoMedia), and leaves the clock, command count and presence `LeftAfter` names: after a command timeout those of the recovery, with Remount exactly when it failed |
| Controller.Sdhc.RetryStep | VoodooSDHC.cpp:1643-1645 | one pass of the retry `for` loop: when it did not time out or was the last try, the driver is where the whole loop ends, with its status; otherwise the loop from here with one try fewer ends as the whole loop does |
| Controller.Sdhc.SdmaRetry | VoodooSDHC.cpp:1642-1648 | the attempts, the read clock and command count each started at, and the clock, command count and card presence the loop leaves are exactly those `RetriesFrom` gives from the loop's start with SDMA_RETRY_COUNT tries: each attempt is the sdma_access call from where the one before and its recovery left the driver, again only after a timeout; the status is that of the last attempt, never NoMedia |
| Controller.Sdhc.RetryLoop | VoodooSDHC.cpp:1642-1645 | the retry `for` loop, sdma_access up to SDMA_RETRY_COUNT times and again only after a timeout, ends where the whole retry loop ends, with the last attempt's status, never NoMedia |
| Controller.Sdhc.RunRead | VoodooSDHC.cpp:1649-1663 | one read pass issues the reset work-around and READ_MULTIPLE_BLOCK or READ_SINGLE_BLOCK at the card address, reports the status of its routine and ends where `RoutineRun` ends, reading 128 data-port words per block; a multi-block run places the blocks it read in the request buffer (`ReadInto`); a single-block run returns the block read, or the old `buff` when the read failed, and writeBytes puts that block into the request buffer at the pass's offset either way |
| Controller.Sdhc.RunWrite | VoodooSDHC.cpp:1694-1705 | one write pass issues the reset work-around and WRITE_BLOCK, or APP_CMD, SET_WR_BLK_ERASE_COUNT and WRITE_MULTIPLE_BLOCK, at the card address, ends as `RoutineRun` says, and sends the request's blocks from the pass's offset to the data port (`StagedWords`) |
| Controller.Sdhc.PioTransfer | VoodooSDHC.cpp:1640-1707 | one pass picks the routine as the source does: multi-block runs of `MIN(2048, n)` blocks when the request has more than one block and multiblock is built, single blocks otherwise; the run is labelled with its block, count and offset `blk - block`, and those are the block address and count its commands carry (`BlockCmds`); the status and clock are those of `RoutineRun`; the request buffer, the data port words read and written and the staging block end as `RunData` of that run says, a read placing its blocks at offset `blk - block` and a write sending the buffer's blocks from there |
| Controller.Sdhc.RunRoutine | VoodooSDHC.cpp:1640-1707 | one pass runs the PIO routine of its direction and kind: its commands are the reset work-around and `BlockCmds` at the card address, it ends as `RoutineRun` says; a write sends the request's blocks to the data port (`StagedWords`) and leaves the request buffer; a read places what it read as RunRead says |
| Controller.Sdhc.PioStep | VoodooSDHC.cpp:1649-1665 | one pass of the `while (n)` loop decreases `n`; on success the loop invariant `PioGoing` (the plan of the request, run so far, still ending as `RunLoop` says) holds again; on failure `RunLoop` over the request's plan ends with that status at the current clock, having run exactly these passes; the trace and command count are always the start's plus `LoopCmds` of the passes run; the data path keeps `Carries` (the rest of the plan leaves it as the whole loop does) on success and is what `LoopData` over the plan leaves on failure |
| Controller.Sdhc.PioLoop | VoodooSDHC.cpp:1640-1707 | the PIO `while (n)` loop ends with the status, the routine runs and the clock of `RunLoop` over the request's plan (chunks of at most 2048 blocks with multiblock, single blocks otherwise); the trace gains exactly the commands of those runs, in order (`LoopCmds`), and the command count `LoopIssued`; zero blocks run nothing and issue nothing; the request buffer and the data port end as `LoopData` over the plan says |
| Controller.Sdhc.Dispatch | VoodooSDHC.cpp:1633-1707 | never NoMedia; ends as `Dispatched` says: the status and runs as `Moved` says (with SDMA and blocks to move, the attempts of the retry loop, the first at the loop's start, each the SdmaPhase from its own start, all but the last timed out, fewer than SDMA_RETRY_COUNT only after one that did not; with SDMA and no blocks, success at once; without SDMA, `RunLoop` over the plan); the commands as `Effects` says (each SDMA attempt sends the set-up for card block `block` and `nblks` blocks; PIO sends `LoopCmds` of its runs; zero blocks issue nothing); the bytes as `Carried` says (SDMA leaves the request buffer and data port alone; PIO leaves what `LoopData` gives, and on success a read fills the buffer with the `nblks` blocks read and a write sends the buffer's first `nblks * 512` bytes); the presence kept, or Remount with SDMA |
| Controller.Sdhc.DispatchSdma | VoodooSDHC.cpp:1641-1648 | with SDMA: one retry loop over the whole request from card block `block`, none for zero blocks, ending as `Dispatched` says |
| Controller.Sdhc.DispatchPio | VoodooSDHC.cpp:1649-1665 | without SDMA: the PIO loop over the plan, ending as `Dispatched` says, with the bytes it read or sent |
| Controller.Sdhc.SdmaDispatched | VoodooSDHC.cpp:1641-1648 | a retry loop that ended as `RetriedFrom` says, or none for zero blocks, is what `Dispatched` says the SDMA branch leaves |
| Controller.Sdhc.PioDispatched | VoodooSDHC.cpp:1649-1707 | a PIO loop that ended as `RunLoop` and `LoopData` say, with its runs' commands, is what `Dispatched` says the PIO branch leaves: never NoMedia, a successful read fills the buffer, a successful write sends it |
| Controller.Sdhc.CheckMedia | VoodooSDHC.cpp:1626-1629 | a card counts as present exactly when it is believed present and Card Inserted is set; PresentState is read only in the first case; an absent card is marked for remount |
| Controller.Sdhc.Complete | VoodooSDHC.cpp:1711-1721 | the lock is released, then the completion is called with `nblks * 512` bytes if there is an action; the result is success, or an error without one |
| Controller.Sdhc.Serve | VoodooSDHC.cpp:1633-1721 | a write in a read-only build fails with Error and issues nothing; otherwise the transfer loop ends as `Dispatched` says (status, commands and bytes) and the result is the loop's status, or Error when the loop succeeded but there is no completion action; the call log gets the unlock, then the completion with `nblks * 512` bytes exactly when the result is success |
| Controller.Sdhc.DoAsyncReadWrite | VoodooSDHC.cpp:1615-1737 | the call log gets the lock, the unlock, then the completion with `nblks * 512` bytes exactly when the result is success; NoMedia exactly for a card not believed present or without Card Inserted, which is then marked for remount with no command issued; a write in a read-only build fails with nothing issued; otherwise the loop, from the read after the presence check, ends as `Dispatched` says (status, commands and bytes) and the result is its status, or Error without a completion action |
| Controller.Sdhc.MountNew | VoodooSDHC.cpp:793-797 | a newly inserted card gets a full reset and cardInit(0), with the outcome `InitOutcome` states, and is then present whatever cardInit returned |
| Controller.Sdhc.ReportMediaState | VoodooSDHC.cpp:781-806 | cardPresence moves as `MediaNext` says, the change flag is `MediaChanged`, media present is the new state; a newly inserted card gets a full reset and cardInit(0) with the outcome `InitOutcome` states; any other report leaves the commands, the trace, the CID table and maxBlock alone |
| Controller.Sdhc.MapRegisters | VoodooSDHC.cpp:204-210 | each mapping attempt succeeds as the hardware says |
| Controller.Sdhc.PowerOffReset | VoodooSDHC.cpp:217-219 | bus power off, then a full reset |
| Controller.Sdhc.Reidentify | VoodooSDHC.cpp:220-228 | cardInit(slot) runs exactly when a card is believed present and still inserted (PresentState is read only in the first case); then it goes through `OpCondPhase` from the next read with the outcome `InitOutcome` states; otherwise no command is issued and the trace, CID table, Power Control and Software Reset are unchanged (`Reinitialised`); the presence becomes `CheckedPresence`: Remount exactly when that card got ready and the CID decoded from its ALL_SEND_CID response differs from the slot's old entry, so it only stays or turns from IsPresent to Remount (`PresenceChecked`) |
| Controller.Sdhc.InitAndCompare | VoodooSDHC.cpp:222-227 | for a card believed present and found inserted: cardInit(slot) through `OpCondPhase` with its outcome `InitOutcome`, and the presence `CheckedPresence` gives: Remount exactly when the card got ready and its new CID differs from the old entry |
| Controller.Sdhc.MarkIfChanged | VoodooSDHC.cpp:224-227 | the card is marked for remount exactly when the slot's CID entry changed; otherwise the presence stays |
| Controller.Sdhc.SetupSlot | VoodooSDHC.cpp:204-228 | one round of setup's loop: the mapping succeeds as the hardware says; a failed mapping changes nothing else; a successful one powers the slot off, resets it and leaves the presence `PresenceChecked` gives for the state the round started in; with no card believed present it only adds the full reset |
| Controller.Sdhc.Setup | VoodooSDHC.cpp:199-232 | setup succeeds exactly when every mapping does; it never marks a card present and only sends a present card to Remount; with no card believed present it only adds one full reset per mapped slot; with one slot the presence is exactly `PresenceChecked`, that is `CheckedPresence` |

## Left out

- IOKit lifecycle and plumbing are not modelled, because they only wire the driver into the kernel:
  - `init`, `free`, `stop`, `setPowerState`;
  - the work loop, interrupt and timer event sources, `handleInterrupt`, `handleTimer`;
  - `dumpRegs`, `LEDControl`, `IOLog`.
- The SDMA wake-up from the interrupt handler is abstracted: each sleep in the SDMA loop either wakes or reaches its deadline, as the hardware oracle says.
- Locks and concurrency are not modelled. The transfer lock of `doAsyncReadWrite` appears only as events in a ghost log; `mediaStateLock` and `sdmaCond` are left out.
- Delays (`IODelay`), real time and the 5-second deadline are not modelled. Time is the count of register reads that take decisions. Reads that only feed `IOLog` are not counted, for example VoodooSDHC.cpp:1106-1107, 1128-1129 and 1160-1161 and the "Stuck in while loop" messages at VoodooSDHC.cpp:1239, 1321, 1357 and 1427.
- The unbounded spins are not modelled, because they consume no reads in the model:
  - SDCommand's wait for Command Inhibit;
  - Reset's wait for Software Reset to clear.
- calcClock's wait at VoodooSDHC.cpp:632 tests `(!ClockControl) & BIT1`, which is 0 once Internal Clock Enable is written, so it never waits; the model has no wait there.
- The loops without a bound are modelled only for hardware that eventually answers (`Hardware.Live`): waitIntStatus's `while (1)`, the legacy ACMD41 loop and the SDMA wait loop. A run that never ends is not represented.
- Write-1-to-clear status semantics are not modelled: a write to NormalIntStatus or ErrorIntStatus is recorded as the value written.
- The DMA engine's own data movement is not modelled. The SDMA path records the copies between the bounce buffer and the request buffer, not their bytes. The PIO paths move real bytes.
- The constant-returning getters are not modelled, because they take no decisions:
  - `reportRemovability`, `reportWriteProtection` (it is `isCardWP(0)`), `reportPollRequirements`;
  - `reportMaxWriteTransfer`, `reportMaxReadTransfer`, `reportMaxValidBlock`, `reportLockability`, `reportEjectability`, `reportBlockSize`;
  - the write-cache calls, the vendor strings, `doSynchronizeCache`, `doLockUnlockMedia`, `doGetFormatCapacities`, `doFormatMedia`, `doEjectMedia`.
- Only the 32-bit `doAsyncReadWrite` (VoodooSDHC.cpp:1615-1737) is modelled. The 64-bit build's copy (VoodooSDHC.cpp:1489-1613) has the same body with 64-bit counters.
- The SPI, MMC and EXT_CSD constants of SD_Commands.h are not modelled, because the driver never uses them.
- `sdhci.h` is not part of this model. Its constants are parameters (`Platform.HostDefs`).
- Controller.Sdhc.SdmaRetry: after the retry loop the contract gives the commands sent, the clock, the command count, the presence and the addressing, not the CID entry, RCA and maxBlock that a recovery's cardInit(0) leaves. SdmaAttempt states those for each attempt (`SdmaOver`).
- Controller.Sdhc.RetryStep: as for SdmaRetry, the CID entry, RCA and maxBlock after a recovery are not stated.
- Controller.Sdhc.RetryLoop: as for SdmaRetry, the CID entry, RCA and maxBlock after a recovery are not stated.
- Controller.Sdhc.Dispatch: with SDMA, as for SdmaRetry, the CID entry, RCA and maxBlock after a recovery are not stated.
- Controller.Sdhc.DispatchSdma: with SDMA, as for SdmaRetry, the CID entry, RCA and maxBlock after a recovery are not stated.
- Controller.Sdhc.Serve: with SDMA, as for SdmaRetry, the CID entry, RCA and maxBlock after a recovery are not stated.
- Controller.Sdhc.DoAsyncReadWrite: with SDMA, as for SdmaRetry, the CID entry, RCA and maxBlock after a recovery are not stated.
- Controller.Sdhc.Setup: with more than one slot, the contract states only that the media state stays or turns from IsPresent to Remount. The exact rule for each slot is SetupSlot's contract.

## Findings

| source | as written | input that shows it | evidently intended | confidence | as-written member | corrected member |
|---|---|---|---|---|---|---|
| VoodooSDHC.cpp:646 | `div = (div<<7) & 0xFF000` keeps only bits 19:12, so divisors 2 to 16 give frequency select 0, which means divide by 1 | Capabilities 0x3200 (base clock 50 MHz), request 25 MHz: divisor 2, field 0, Clock Control 0x0005, the card runs at 50 MHz | mask 0xFF00 (the 8-bit SDCLK frequency select), so the clock never exceeds the request | not executed | ClockPower.ClockWordCounterexample | ClockPower.IntendedWordProgrammed |
| VoodooSDHC.cpp:718 | version 2.0 `maxBlock = (units + 1) * 1024` is the block count | C_SIZE 0: 1024 blocks, numbered 0 to 1023, reported as 1024 | `(units + 1) * 1024 - 1`, the last block, as in the version 1.0 branch | not executed | CsdRegister.CsdV2CountNotLast | CsdRegister.CsdV2RoundTrip |
| VoodooSDHC.cpp:715-717 | the version 2.0 device size is assembled from Response[1] bits 31:16 and Response[2] bits 5:0 | C_SIZE 0x3B37 decodes as 0x3B00 and reports 0x3B01 * 1024 | C_SIZE is CSD bits 69:48, which is Response[1] bits 29:8 | not executed | CsdRegister.CsdV2SizeBytes | CsdRegister.CsdV2RoundTrip |
