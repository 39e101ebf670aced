/**
 * The SDHCI register block of one host controller (SD Host Controller
 * Simplified Specification v2.00, section 2.2): the packed 256-byte layout
 * and the bit constants the driver uses for its registers.
 */
module RegisterMap {

  /** The fields of the packed register structure, in declaration order. */
  datatype Reg =
      SDMASysAddr
    | BlockSize
    | BlockCount
    | Argument
    | TransferMode
    | Command
    | Response
    | BufferDataPort
    | PresentState
    | HostControl
    | PowerControl
    | BlockGapControl
    | WakeupControl
    | ClockControl
    | TimeoutControl
    | SoftwareReset
    | NormalIntStatus
    | ErrorIntStatus
    | NormalIntStatusEn
    | ErrorIntStatusEn
    | NormalIntSignalEn
    | ErrorIntSignalEn
    | CMD12ErrorStatus
    | Reserved0
    | Capabilities
    | MaxCurrentCap
    | ForceEventCMD12ErrStatus
    | ForceEventErrorIntStatus
    | AMDAErrorStatus
    | Reserved1
    | Reserved2
    | ADMASystemAddr
    | ReservedArray
    | SlotIntStatus
    | HostControllerVer

  /** The width of one element of the field, in bytes. */
  function Width(r: Reg): nat
  {
    match r
    case SDMASysAddr => 4
    case BlockSize => 2
    case BlockCount => 2
    case Argument => 4
    case TransferMode => 2
    case Command => 2
    case Response => 4
    case BufferDataPort => 4
    case PresentState => 4
    case HostControl => 1
    case PowerControl => 1
    case BlockGapControl => 1
    case WakeupControl => 1
    case ClockControl => 2
    case TimeoutControl => 1
    case SoftwareReset => 1
    case NormalIntStatus => 2
    case ErrorIntStatus => 2
    case NormalIntStatusEn => 2
    case ErrorIntStatusEn => 2
    case NormalIntSignalEn => 2
    case ErrorIntSignalEn => 2
    case CMD12ErrorStatus => 2
    case Reserved0 => 2
    case Capabilities => 4
    case MaxCurrentCap => 4
    case ForceEventCMD12ErrStatus => 2
    case ForceEventErrorIntStatus => 2
    case AMDAErrorStatus => 1
    case Reserved1 => 1
    case Reserved2 => 2
    case ADMASystemAddr => 4
    case ReservedArray => 2
    case SlotIntStatus => 2
    case HostControllerVer => 2
  }

  /** The number of elements (1 for a scalar field). */
  function Count(r: Reg): nat
  {
    match r
    case SDMASysAddr => 1
    case BlockSize => 1
    case BlockCount => 1
    case Argument => 1
    case TransferMode => 1
    case Command => 1
    case Response => 4
    case BufferDataPort => 1
    case PresentState => 1
    case HostControl => 1
    case PowerControl => 1
    case BlockGapControl => 1
    case WakeupControl => 1
    case ClockControl => 1
    case TimeoutControl => 1
    case SoftwareReset => 1
    case NormalIntStatus => 1
    case ErrorIntStatus => 1
    case NormalIntStatusEn => 1
    case ErrorIntStatusEn => 1
    case NormalIntSignalEn => 1
    case ErrorIntSignalEn => 1
    case CMD12ErrorStatus => 1
    case Reserved0 => 1
    case Capabilities => 2
    case MaxCurrentCap => 2
    case ForceEventCMD12ErrStatus => 1
    case ForceEventErrorIntStatus => 1
    case AMDAErrorStatus => 1
    case Reserved1 => 1
    case Reserved2 => 1
    case ADMASystemAddr => 2
    case ReservedArray => 78
    case SlotIntStatus => 1
    case HostControllerVer => 1
  }

  /** The offset annotated beside the field in the header. */
  function Offset(r: Reg): nat
  {
    match r
    case SDMASysAddr => 0x00
    case BlockSize => 0x04
    case BlockCount => 0x06
    case Argument => 0x08
    case TransferMode => 0x0C
    case Command => 0x0E
    case Response => 0x10
    case BufferDataPort => 0x20
    case PresentState => 0x24
    case HostControl => 0x28
    case PowerControl => 0x29
    case BlockGapControl => 0x2A
    case WakeupControl => 0x2B
    case ClockControl => 0x2C
    case TimeoutControl => 0x2E
    case SoftwareReset => 0x2F
    case NormalIntStatus => 0x30
    case ErrorIntStatus => 0x32
    case NormalIntStatusEn => 0x34
    case ErrorIntStatusEn => 0x36
    case NormalIntSignalEn => 0x38
    case ErrorIntSignalEn => 0x3A
    case CMD12ErrorStatus => 0x3C
    case Reserved0 => 0x3E
    case Capabilities => 0x40
    case MaxCurrentCap => 0x48
    case ForceEventCMD12ErrStatus => 0x50
    case ForceEventErrorIntStatus => 0x52
    case AMDAErrorStatus => 0x54
    case Reserved1 => 0x55
    case Reserved2 => 0x56
    case ADMASystemAddr => 0x58
    case ReservedArray => 0x60
    case SlotIntStatus => 0xFC
    case HostControllerVer => 0xFE
  }

  function Bytes(r: Reg): nat { Width(r) * Count(r) }

  /** The field declared right after r; the last field has none and maps to itself. */
  function Succ(r: Reg): Reg
  {
    match r
    case SDMASysAddr => BlockSize
    case BlockSize => BlockCount
    case BlockCount => Argument
    case Argument => TransferMode
    case TransferMode => Command
    case Command => Response
    case Response => BufferDataPort
    case BufferDataPort => PresentState
    case PresentState => HostControl
    case HostControl => PowerControl
    case PowerControl => BlockGapControl
    case BlockGapControl => WakeupControl
    case WakeupControl => ClockControl
    case ClockControl => TimeoutControl
    case TimeoutControl => SoftwareReset
    case SoftwareReset => NormalIntStatus
    case NormalIntStatus => ErrorIntStatus
    case ErrorIntStatus => NormalIntStatusEn
    case NormalIntStatusEn => ErrorIntStatusEn
    case ErrorIntStatusEn => NormalIntSignalEn
    case NormalIntSignalEn => ErrorIntSignalEn
    case ErrorIntSignalEn => CMD12ErrorStatus
    case CMD12ErrorStatus => Reserved0
    case Reserved0 => Capabilities
    case Capabilities => MaxCurrentCap
    case MaxCurrentCap => ForceEventCMD12ErrStatus
    case ForceEventCMD12ErrStatus => ForceEventErrorIntStatus
    case ForceEventErrorIntStatus => AMDAErrorStatus
    case AMDAErrorStatus => Reserved1
    case Reserved1 => Reserved2
    case Reserved2 => ADMASystemAddr
    case ADMASystemAddr => ReservedArray
    case ReservedArray => SlotIntStatus
    case SlotIntStatus => HostControllerVer
    case HostControllerVer => HostControllerVer
  }

  /** The position of r in the declaration order. */
  function Index(r: Reg): nat
  {
    match r
    case SDMASysAddr => 0
    case BlockSize => 1
    case BlockCount => 2
    case Argument => 3
    case TransferMode => 4
    case Command => 5
    case Response => 6
    case BufferDataPort => 7
    case PresentState => 8
    case HostControl => 9
    case PowerControl => 10
    case BlockGapControl => 11
    case WakeupControl => 12
    case ClockControl => 13
    case TimeoutControl => 14
    case SoftwareReset => 15
    case NormalIntStatus => 16
    case ErrorIntStatus => 17
    case NormalIntStatusEn => 18
    case ErrorIntStatusEn => 19
    case NormalIntSignalEn => 20
    case ErrorIntSignalEn => 21
    case CMD12ErrorStatus => 22
    case Reserved0 => 23
    case Capabilities => 24
    case MaxCurrentCap => 25
    case ForceEventCMD12ErrStatus => 26
    case ForceEventErrorIntStatus => 27
    case AMDAErrorStatus => 28
    case Reserved1 => 29
    case Reserved2 => 30
    case ADMASystemAddr => 31
    case ReservedArray => 32
    case SlotIntStatus => 33
    case HostControllerVer => 34
  }

  /** The structure is packed exactly as annotated: the first field is at offset 0,
      every field starts where the one declared before it ends, the last field ends
      at 0x100, and the 78 reserved 16-bit words fill 0x60 up to SlotIntStatus. */
  lemma LayoutIsPacked()
    ensures Offset(SDMASysAddr) == 0
    ensures forall r :: r != HostControllerVer ==> Offset(Succ(r)) == Offset(r) + Bytes(r)
    ensures Offset(HostControllerVer) + Bytes(HostControllerVer) == 0x100
    ensures Offset(ReservedArray) == 0x60 && Offset(ReservedArray) + Bytes(ReservedArray) == Offset(SlotIntStatus) == 0xFC
  {
    forall r | r != HostControllerVer
      ensures Offset(Succ(r)) == Offset(r) + Bytes(r)
    {
      if Index(r) < 12 {
        PackedFirst(r);
      } else if Index(r) < 24 {
        PackedMiddle(r);
      } else {
        PackedLast(r);
      }
    }
  }

  /** Packing of the fields 0 to 11, 12 to 23 and 24 to 33 of the declaration. */
  lemma PackedFirst(r: Reg)
    requires 0 <= Index(r) < 12
    ensures Offset(Succ(r)) == Offset(r) + Bytes(r)
  {
    match r
    case SDMASysAddr =>
    case BlockSize =>
    case BlockCount =>
    case Argument =>
    case TransferMode =>
    case Command =>
    case Response =>
    case BufferDataPort =>
    case PresentState =>
    case HostControl =>
    case PowerControl =>
    case BlockGapControl =>
    case _ => assert false;
  }

  lemma PackedMiddle(r: Reg)
    requires 12 <= Index(r) < 24
    ensures Offset(Succ(r)) == Offset(r) + Bytes(r)
  {
    match r
    case WakeupControl =>
    case ClockControl =>
    case TimeoutControl =>
    case SoftwareReset =>
    case NormalIntStatus =>
    case ErrorIntStatus =>
    case NormalIntStatusEn =>
    case ErrorIntStatusEn =>
    case NormalIntSignalEn =>
    case ErrorIntSignalEn =>
    case CMD12ErrorStatus =>
    case Reserved0 =>
    case _ => assert false;
  }

  lemma PackedLast(r: Reg)
    requires 24 <= Index(r) < 34
    ensures Offset(Succ(r)) == Offset(r) + Bytes(r)
  {
    match r
    case Capabilities =>
    case MaxCurrentCap =>
    case ForceEventCMD12ErrStatus =>
    case ForceEventErrorIntStatus =>
    case AMDAErrorStatus =>
    case Reserved1 =>
    case Reserved2 =>
    case ADMASystemAddr =>
    case ReservedArray =>
    case SlotIntStatus =>
    case _ => assert false;
  }

  /** Every field lies inside the 256-byte block and is aligned to its element width. */
  lemma FieldsAligned()
    ensures forall r :: Offset(r) + Bytes(r) <= 0x100 && Offset(r) % Width(r) == 0
  {
  }

  // ---- PresentState (offset 024h) ----
  const ComInhibitCMD: bv32 := 1 << 0
  const ComInhibitDAT: bv32 := 1 << 1
  const BuffWriteEn: bv32 := 1 << 10
  const BuffReadEn: bv32 := 1 << 11
  const CardInserted: bv32 := 1 << 16
  const WPSwitchLevel: bv32 := 1 << 19

  // ---- HostControl (offset 028h) ----
  const LedControl: bv8 := 1 << 0
  const DataXferWidth: bv8 := 1 << 1
  const HighSpeedEn: bv8 := 1 << 2

  // ---- PowerControl (offset 029h) ----
  const HC3v3: bv8 := 0xE
  const HC3v0: bv8 := 0xD
  const HC1v8: bv8 := 0xA
  const SDPower: bv8 := 1 << 0

  // ---- ClockControl (offset 02Ch) ----
  const InternalClockEn: bv16 := 1 << 0
  const SDClockStable: bv16 := 1 << 1
  const SDClockEn: bv16 := 1 << 2

  // ---- Capabilities (offset 040h) ----
  const CR3v3Support: bv32 := 1 << 24
  const CR3v0Support: bv32 := 1 << 25
  const CR1v8Support: bv32 := 1 << 26
  const BaseClockMask: bv32 := (1 << 13) | (1 << 12) | (1 << 11) | (1 << 10) | (1 << 9) | (1 << 8)

  // ---- SoftwareReset (offset 02Fh) ----
  const FULL_RESET: bv8 := 1 << 0
  const CMD_RESET: bv8 := 1 << 1
  const DAT_RESET: bv8 := 1 << 2

  // ---- NormalIntStatus (offset 030h) ----
  const CmdComplete: bv16 := 1 << 0
  const XferComplete: bv16 := 1 << 1
  const BlockGapEvent: bv16 := 1 << 2
  const DMAInterrupt: bv16 := 1 << 3
  const BuffWriteReady: bv16 := 1 << 4
  const BuffReadReady: bv16 := 1 << 5
  const CardInsertion: bv16 := 1 << 6
  const CardRemoval: bv16 := 1 << 7
  const CardInterrupt: bv16 := 1 << 8
  const ErrorInterrupt: bv16 := 1 << 15

  /** The ten bits of the normal interrupt status register the header names. */
  const NormalStatusBits: seq<bv16> := [ErrorInterrupt, CardInterrupt, CardRemoval, CardInsertion,
    BuffReadReady, BuffWriteReady, DMAInterrupt, BlockGapEvent, XferComplete, CmdComplete]

  predicate SingleBit16(b: bv16) { b != 0 && b & (b - 1) == 0 }
  predicate SingleBit8(b: bv8) { b != 0 && b & (b - 1) == 0 }

  /** A 16-bit register keeps the low 16 bits of a wider value written to it. */
  function Store16(v: bv32): bv16
  {
    (v & 0xFFFF) as bv16
  }

  /** An 8-bit register keeps the low 8 bits of a wider value written to it. */
  function Store8(v: bv32): bv8
  {
    (v & 0xFF) as bv8
  }

  /** Base clock frequency for SD clock in MHz: Capabilities bits 13:8. */
  function BaseClockMHz(caps: bv32): (mhz: bv32)
    ensures mhz == (caps / 0x100) % 0x40
    ensures mhz < 64
  {
    (caps & BaseClockMask) >> 8
  }

  /** The supply voltage a PowerControl value selects in bits 3:1 (section 2.2.11). */
  datatype Voltage = V3_3 | V3_0 | V1_8 | NoVoltage

  function VoltageSelect(pc: bv8): Voltage
  {
    var sel := (pc >> 1) & 7;
    if sel == 7 then V3_3 else if sel == 6 then V3_0 else if sel == 5 then V1_8 else NoVoltage
  }

  /** The three voltage codes select 3.3 V, 3.0 V and 1.8 V; only the 3.0 V code
      also carries the SD Bus Power bit. */
  lemma PowerCodes()
    ensures VoltageSelect(HC3v3) == V3_3 && VoltageSelect(HC3v0) == V3_0 && VoltageSelect(HC1v8) == V1_8
    ensures HC3v0 & SDPower == SDPower
    ensures HC3v3 & SDPower == 0 && HC1v8 & SDPower == 0
  {
  }

  /** The reset kinds are the distinct single bits 0, 1 and 2. */
  lemma ResetBits()
    ensures SingleBit8(FULL_RESET) && SingleBit8(CMD_RESET) && SingleBit8(DAT_RESET)
    ensures FULL_RESET == 1 && CMD_RESET == 2 && DAT_RESET == 4
    ensures FULL_RESET & CMD_RESET == 0 && FULL_RESET & DAT_RESET == 0 && CMD_RESET & DAT_RESET == 0
  {
  }

  /** The normal status bits are distinct single bits, ErrorInterrupt is the
      literal 0x8000 the PIO loops test, and the base clock mask is 0x3F00. */
  lemma StatusBits()
    ensures forall i :: 0 <= i < |NormalStatusBits| ==> SingleBit16(NormalStatusBits[i])
    ensures forall i, j :: 0 <= i < j < |NormalStatusBits| ==> NormalStatusBits[i] & NormalStatusBits[j] == 0
    ensures ErrorInterrupt == 0x8000 && BaseClockMask == 0x3F00
    ensures ComInhibitCMD == 1 && CardInserted == 0x1_0000 && WPSwitchLevel == 0x8_0000
  {
  }
}
