/**
 * The SD command set as the driver names it: command indices, the response
 * kind of every command and application command (the SDCR/SDACR tables), the
 * R1 card-status flags and the arguments the driver builds.
 */
module SdCommands {

  datatype Option<T> = None | Some(value: T)

  // ---- Command indices (SD Physical Layer Simplified Specification 2.00, section 4.7.4) ----
  const GO_IDLE_STATE: bv8 := 0
  const ALL_SEND_CID: bv8 := 2
  const SET_RELATIVE_ADDR: bv8 := 3
  const SWITCH: bv8 := 6
  const APP_SET_BUS_WIDTH: bv8 := 6
  const SELECT_CARD: bv8 := 7
  const SEND_IF_COND: bv8 := 8
  const SEND_CSD: bv8 := 9
  const READ_SINGLE_BLOCK: bv8 := 17
  const READ_MULTIPLE_BLOCK: bv8 := 18
  const APP_SET_WR_BLK_ERASE_COUNT: bv8 := 23
  const WRITE_BLOCK: bv8 := 24
  const WRITE_MULTIPLE_BLOCK: bv8 := 25
  const APP_OP_COND: bv8 := 41
  const APP_CMD: bv8 := 55

  /** The response kinds, in the order of their numeric codes R0 = 0 ... R7 = 9. */
  datatype ResponseKind = R0 | R1 | R1b | R2 | R3 | R4 | R5 | R5b | R6 | R7

  /** The numeric code the driver passes for a response kind. */
  function Code(k: ResponseKind): (c: bv16)
    ensures c <= 9
  {
    match k
    case R0 => 0
    case R1 => 1
    case R1b => 2
    case R2 => 3
    case R3 => 4
    case R4 => 5
    case R5 => 6
    case R5b => 7
    case R6 => 8
    case R7 => 9
  }

  /** The response kind a numeric code names, if any. */
  function KindOf(c: bv16): (k: Option<ResponseKind>)
    ensures k.Some? <==> c <= 9
    ensures k.Some? ==> Code(k.value) == c
  {
    if c == 0 then Some(R0) else if c == 1 then Some(R1) else if c == 2 then Some(R1b)
    else if c == 3 then Some(R2) else if c == 4 then Some(R3) else if c == 5 then Some(R4)
    else if c == 6 then Some(R5) else if c == 7 then Some(R5b) else if c == 8 then Some(R6)
    else if c == 9 then Some(R7) else None
  }

  /** The codes are distinct, and a code names back the kind it came from. */
  lemma CodeRoundTrip(k: ResponseKind, j: ResponseKind)
    ensures KindOf(Code(k)) == Some(k)
    ensures Code(k) == Code(j) ==> k == j
  {
  }

  /** SDCRn: the response kind of (non-application) command n. */
  function Sdcr(n: nat): ResponseKind
    requires n < 64
  {
    if n in {2, 9, 10} then R2
    else if n == 3 then R6
    else if n == 8 then R7
    else if n in {7, 12, 28, 29, 38} then R1b
    else if n in {6, 13, 16, 17, 18, 24, 25, 27, 30, 32, 33, 42, 55, 56} then R1
    else R0
  }

  /** SDACRn: the response kind of application command n (sent after APP_CMD). */
  function Sdacr(n: nat): ResponseKind
    requires n < 64
  {
    if n == 41 then R3
    else if n in {6, 13, 21, 22, 42, 51} then R1
    else R0
  }

  /** The response kinds the tables give the commands the driver issues: R2 for the
      CID and CSD, R6 for the relative address, R7 for the interface condition,
      R1b for selecting the card, R3 for the operating condition, R1 for the data
      transfers, APP_CMD and SWITCH, and no response at all for GO_IDLE_STATE and
      for SET_WR_BLK_ERASE_COUNT in either table. */
  lemma DriverCommandKinds()
    ensures Sdcr(0) == R0 && Sdcr(2) == R2 && Sdcr(3) == R6 && Sdcr(6) == R1 && Sdcr(7) == R1b
    ensures Sdcr(8) == R7 && Sdcr(9) == R2 && Sdcr(55) == R1
    ensures Sdcr(17) == R1 && Sdcr(18) == R1 && Sdcr(24) == R1 && Sdcr(25) == R1
    ensures Sdacr(41) == R3 && Sdacr(6) == R1
    ensures Sdcr(23) == R0 && Sdacr(23) == R0
  {
  }

  /** The codes of the table entries the driver passes to SDCommand, as the
      header's SDCRn and SDACRn names give them. */
  const SDCR0: bv16 := 0
  const SDCR2: bv16 := 3
  const SDCR3: bv16 := 8
  const SDCR6: bv16 := 1
  const SDCR7: bv16 := 2
  const SDCR8: bv16 := 9
  const SDCR9: bv16 := 3
  const SDCR17: bv16 := 1
  const SDCR18: bv16 := 1
  const SDCR23: bv16 := 0
  const SDCR24: bv16 := 1
  const SDCR25: bv16 := 1
  const SDCR55: bv16 := 1
  const SDACR41: bv16 := 4

  /** Each named code is the code of its table entry. */
  lemma NamedCodes()
    ensures SDCR0 == Code(Sdcr(0)) && SDCR2 == Code(Sdcr(2)) && SDCR3 == Code(Sdcr(3))
    ensures SDCR6 == Code(Sdcr(6)) && SDCR7 == Code(Sdcr(7)) && SDCR8 == Code(Sdcr(8))
    ensures SDCR9 == Code(Sdcr(9)) && SDCR17 == Code(Sdcr(17)) && SDCR18 == Code(Sdcr(18))
    ensures SDCR23 == Code(Sdcr(23)) && SDCR24 == Code(Sdcr(24)) && SDCR25 == Code(Sdcr(25))
    ensures SDCR55 == Code(Sdcr(55)) && SDACR41 == Code(Sdacr(41))
  {
  }

  /** Only the R2 commands (long responses) are 2, 9 and 10, and only ACMD41 has R3. */
  lemma LongResponses(n: nat)
    requires n < 64
    ensures Sdcr(n) == R2 <==> n == 2 || n == 9 || n == 10
    ensures Sdacr(n) == R3 <==> n == 41
    ensures Sdcr(n) != R3 && Sdcr(n) != R4 && Sdcr(n) != R5 && Sdcr(n) != R5b
  {
  }

  // ---- R1 card status (section 4.10.1) ----
  const R1_OUT_OF_RANGE: bv32 := 1 << 31
  const R1_ADDRESS_ERROR: bv32 := 1 << 30
  const R1_BLOCK_LEN_ERROR: bv32 := 1 << 29
  const R1_ERASE_SEQ_ERROR: bv32 := 1 << 28
  const R1_ERASE_PARAM: bv32 := 1 << 27
  const R1_WP_VIOLATION: bv32 := 1 << 26
  const R1_CARD_IS_LOCKED: bv32 := 1 << 25
  const R1_LOCK_UNLOCK_FAILED: bv32 := 1 << 24
  const R1_COM_CRC_ERROR: bv32 := 1 << 23
  const R1_ILLEGAL_COMMAND: bv32 := 1 << 22
  const R1_CARD_ECC_FAILED: bv32 := 1 << 21
  const R1_CC_ERROR: bv32 := 1 << 20
  const R1_ERROR: bv32 := 1 << 19
  const R1_UNDERRUN: bv32 := 1 << 18
  const R1_OVERRUN: bv32 := 1 << 17
  const R1_CID_CSD_OVERWRITE: bv32 := 1 << 16
  const R1_WP_ERASE_SKIP: bv32 := 1 << 15
  const R1_CARD_ECC_DISABLED: bv32 := 1 << 14
  const R1_ERASE_RESET: bv32 := 1 << 13
  const R1_READY_FOR_DATA: bv32 := 1 << 8
  const R1_APP_CMD: bv32 := 1 << 5

  /** The status flags, bits 31 down to 13. */
  const R1StatusFlags: seq<bv32> := [R1_OUT_OF_RANGE, R1_ADDRESS_ERROR, R1_BLOCK_LEN_ERROR,
    R1_ERASE_SEQ_ERROR, R1_ERASE_PARAM, R1_WP_VIOLATION, R1_CARD_IS_LOCKED, R1_LOCK_UNLOCK_FAILED,
    R1_COM_CRC_ERROR, R1_ILLEGAL_COMMAND, R1_CARD_ECC_FAILED, R1_CC_ERROR, R1_ERROR, R1_UNDERRUN,
    R1_OVERRUN, R1_CID_CSD_OVERWRITE, R1_WP_ERASE_SKIP, R1_CARD_ECC_DISABLED, R1_ERASE_RESET]

  /** R1_STATUS: the status flags of a card status word, and nothing else. */
  function R1Status(x: bv32): (r: bv32)
    ensures r % 0x2000 == 0
    ensures r / 0x2000 == x / 0x2000
  {
    x & 0xFFFF_E000
  }

  /** R1_CURRENT_STATE: the four-bit card state field, bits 12:9. */
  function R1CurrentState(x: bv32): (s: bv32)
    ensures s < 16
    ensures s == (x / 0x200) % 16
  {
    (x & 0x1E00) >> 9
  }

  /** The status mask keeps every one of the nineteen status flags and neither
      READY_FOR_DATA, APP_CMD nor the current-state field. */
  lemma R1StatusKeepsFlags(x: bv32)
    ensures forall i :: 0 <= i < |R1StatusFlags| ==> R1Status(x) & R1StatusFlags[i] == x & R1StatusFlags[i]
    ensures R1Status(x) & (R1_READY_FOR_DATA | R1_APP_CMD) == 0
    ensures R1Status(x) & 0x1E00 == 0
  {
  }

  /** The mask the driver tests after ACMD6 (set bus width). */
  const BusWidthErrorMask: bv32 := 0x48_0000
  /** The masks the driver tests after the SDMA read and write commands. */
  const ReadErrorMask: bv32 := 0xCFF8_0000
  const WriteErrorMask: bv32 := 0xEFF8_0000

  /** The bus-width check is ILLEGAL_COMMAND and ERROR; the SDMA read check is
      OUT_OF_RANGE, ADDRESS_ERROR and every flag from ERASE_PARAM down to ERROR;
      the write check adds BLOCK_LEN_ERROR; neither checks ERASE_SEQ_ERROR, and
      both lie inside the status flags. */
  lemma ErrorMasks()
    ensures BusWidthErrorMask == R1_ILLEGAL_COMMAND | R1_ERROR
    ensures ReadErrorMask == R1_OUT_OF_RANGE | R1_ADDRESS_ERROR | R1_ERASE_PARAM | R1_WP_VIOLATION
      | R1_CARD_IS_LOCKED | R1_LOCK_UNLOCK_FAILED | R1_COM_CRC_ERROR | R1_ILLEGAL_COMMAND
      | R1_CARD_ECC_FAILED | R1_CC_ERROR | R1_ERROR
    ensures WriteErrorMask == ReadErrorMask | R1_BLOCK_LEN_ERROR
    ensures WriteErrorMask & R1_ERASE_SEQ_ERROR == 0
    ensures R1Status(WriteErrorMask) == WriteErrorMask && R1Status(BusWidthErrorMask) == BusWidthErrorMask
  {
  }

  // ---- Operating conditions and arguments ----

  /** Card power-up status bit of the OCR: set once the card has finished powering up. */
  const MMC_CARD_BUSY: bv32 := 0x8000_0000
  /** Card capacity status bit of the OCR: set for a high-capacity card. */
  const OCR_CCS: bv32 := 0x4000_0000

  /** ACMD41 arguments: the 2.7-3.6 V voltage window, and the same window with
      the host-capacity-support bit for a version 2.00 card. */
  const OcrWindowArg: bv32 := 0x00FF_8000
  const OcrHcsArg: bv32 := 0x40FF_8000

  /** The SEND_IF_COND argument the driver sends. */
  const IfCondArg: bv32 := 0x1AA

  function IfCondVoltage(arg: bv32): (v: bv32)
    ensures v < 16 && v == (arg / 0x100) % 16
  {
    (arg >> 8) & 0xF
  }

  function IfCondPattern(arg: bv32): (p: bv32)
    ensures p < 0x100 && p == arg % 0x100
  {
    arg & 0xFF
  }

  /** SEND_IF_COND asks for 2.7-3.6 V (flag 1) with check pattern 0xAA and zero reserved
      bits; the ACMD41 arguments set every voltage bit 15..23 and differ only in HCS. */
  lemma Arguments()
    ensures IfCondVoltage(IfCondArg) == 1 && IfCondPattern(IfCondArg) == 0xAA && IfCondArg >> 12 == 0
    ensures (OcrWindowArg >> 15) & 0x1FF == 0x1FF && OcrWindowArg & 0x7FFF == 0 && OcrWindowArg >> 24 == 0
    ensures OcrHcsArg == OcrWindowArg | OCR_CCS
    ensures MMC_CARD_BUSY == 1 << 31
  {
  }

  const SD_BUS_WIDTH_1: bv32 := 0
  const SD_BUS_WIDTH_4: bv32 := 2
  const SD_SWITCH_CHECK: bv32 := 0
  const SD_SWITCH_SET: bv32 := 1
  const SD_SWITCH_ACCESS_HS: bv32 := 1

  /** The SWITCH argument of the high-speed build option. */
  const SwitchHighSpeedArg: bv32 := 0x01FF_FFF1

  function SwitchMode(arg: bv32): bv32 { arg >> 31 }
  function SwitchGroup(arg: bv32, g: nat): bv32 requires 1 <= g <= 6 { (arg >> ((g - 1) * 4)) & 0xF }

  /** The high-speed SWITCH argument asks for access mode "high speed" in function
      group 1 and leaves groups 2-6 unchanged (0xF), but its mode bit is 0, so it
      only checks the function rather than switching to it, and reserved bit 24 is set. */
  lemma SwitchArgument()
    ensures SwitchMode(SwitchHighSpeedArg) == SD_SWITCH_CHECK
    ensures SwitchGroup(SwitchHighSpeedArg, 1) == SD_SWITCH_ACCESS_HS
    ensures forall g :: 2 <= g <= 6 ==> SwitchGroup(SwitchHighSpeedArg, g) == 0xF
    ensures (SwitchHighSpeedArg >> 24) & 0x7F == 1
  {
  }
}
