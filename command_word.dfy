/**
 * The Command register word SDCommand writes (section 2.2.6 of the SD Host
 * Controller Simplified Specification 2.00): the command index in bits 13:8,
 * the data-present bit 5, and the response-type, CRC-check and index-check bits
 * chosen from the response kind. Also the TransferMode word written for the
 * multi-block commands.
 */
module CommandWord {
  import opened SdCommands
  import opened Platform

  /** The flag bits SDCommand's switch picks for a response code. A code that names
      no response kind falls through the switch and is used as it is. */
  function ResponseFlags(code: bv16): (f: bv16)
    ensures code > 9 ==> f == code
    ensures code <= 9 ==> f & 0xFFE4 == 0
  {
    match KindOf(code)
    case None => code
    case Some(k) => KindFlags(k)
  }

  /** BIT4|BIT3|BIT1 for R1, R5, R6 and R7; with BIT0 for R1b and R5b; BIT3|BIT0 for
      R2; BIT1 for R3 and R4; nothing for R0. */
  function KindFlags(k: ResponseKind): bv16
  {
    match k
    case R0 => 0
    case R1 => 0x1A
    case R1b => 0x1B
    case R2 => 0x09
    case R3 => 0x02
    case R4 => 0x02
    case R5 => 0x1A
    case R5b => 0x1B
    case R6 => 0x1A
    case R7 => 0x1A
  }

  /** The commands SDCommand marks as moving data. */
  predicate TransfersData(cmd: bv8)
  {
    cmd == READ_SINGLE_BLOCK || cmd == READ_MULTIPLE_BLOCK || cmd == WRITE_BLOCK || cmd == WRITE_MULTIPLE_BLOCK
  }

  const DataPresent: bv16 := 1 << 5

  /** The value SDCommand writes to the Command register. */
  function Word(cmd: bv8, code: bv16): bv16
  {
    ((cmd as bv16) << 8) | ResponseFlags(code) | (if TransfersData(cmd) then DataPresent else 0)
  }

  // ---- An independent reading of the Command register ----

  /** Response Type Select, bits 1:0. */
  datatype ResponseLength = NoResponse | Long136 | Short48 | Short48Busy

  /** What the controller is told to expect: the response length and whether it
      checks the CRC (bit 3) and the command index (bit 4) of the response. */
  datatype Shape = Shape(length: ResponseLength, crcCheck: bool, indexCheck: bool)

  /** The shape each response kind has on the bus (section 4.9 of the SD Physical
      Layer Simplified Specification 2.00, and SDIO for R4 and R5): R2 is the 136-bit
      CID/CSD response whose CRC is checked but which carries no command index;
      R3 and R4 carry neither a valid CRC nor an index; the b kinds signal busy. */
  function Expected(k: ResponseKind): Shape
  {
    match k
    case R0 => Shape(NoResponse, false, false)
    case R1 => Shape(Short48, true, true)
    case R1b => Shape(Short48Busy, true, true)
    case R2 => Shape(Long136, true, false)
    case R3 => Shape(Short48, false, false)
    case R4 => Shape(Short48, false, false)
    case R5 => Shape(Short48, true, true)
    case R5b => Shape(Short48Busy, true, true)
    case R6 => Shape(Short48, true, true)
    case R7 => Shape(Short48, true, true)
  }

  function DecodeShape(w: bv16): Shape
  {
    var sel := w & 3;
    var len := if sel == 0 then NoResponse else if sel == 1 then Long136 else if sel == 2 then Short48 else Short48Busy;
    Shape(len, w & 0x8 != 0, w & 0x10 != 0)
  }

  /** The command index field, bits 13:8. */
  function DecodeIndex(w: bv16): bv16
  {
    (w >> 8) & 0x3F
  }

  /** The command type field, bits 15:14 (0 for a normal command). */
  function DecodeType(w: bv16): bv16
  {
    w >> 14
  }

  /** For every command index and response kind, the word SDCommand writes asks
      the controller for exactly the response shape of that kind, carries the
      index as a normal command, and has the data-present bit exactly for the four
      block transfer commands. */
  lemma WordMeaning(cmd: bv8, k: ResponseKind)
    requires cmd < 64
    ensures DecodeShape(Word(cmd, Code(k))) == Expected(k)
    ensures DecodeIndex(Word(cmd, Code(k))) == cmd as bv16
    ensures DecodeType(Word(cmd, Code(k))) == 0
    ensures Word(cmd, Code(k)) & DataPresent != 0 <==> TransfersData(cmd)
  {
    FlagsMeaning(k);
    WordFields(cmd, KindFlags(k), if TransfersData(cmd) then DataPresent else 0);
  }

  lemma FlagsMeaning(k: ResponseKind)
    ensures ResponseFlags(Code(k)) == KindFlags(k)
    ensures KindFlags(k) & 0xFFE4 == 0
    ensures DecodeShape(KindFlags(k)) == Expected(k)
  {
    CodeRoundTrip(k, k);
  }

  /** Bit-level layout of the word: flags in bits 4:0, the data bit 5, the index above. */
  lemma WordFields(cmd: bv8, flags: bv16, data: bv16)
    requires cmd < 64 && flags & 0xFFE4 == 0 && (data == 0 || data == DataPresent)
    ensures DecodeShape(((cmd as bv16) << 8) | flags | data) == DecodeShape(flags)
    ensures DecodeIndex(((cmd as bv16) << 8) | flags | data) == cmd as bv16
    ensures DecodeType(((cmd as bv16) << 8) | flags | data) == 0
    ensures (((cmd as bv16) << 8) | flags | data) & DataPresent == data
  {
  }

  /** A code naming no response kind is OR-ed in unchanged, so its bits reach the
      Command register, possibly over the index field. */
  lemma UnknownCodePassesThrough(cmd: bv8, code: bv16)
    requires code > 9
    ensures Word(cmd, code) & code == code
  {
  }

  /** The TransferMode word SDCommand writes, to slot 0's registers, before the
      multi-block commands; other commands leave TransferMode alone. */
  function TransferModeFor(cmd: bv8, defs: HostDefs, cfg: Config): (m: Option<bv16>)
    ensures m.Some? <==> cmd == READ_MULTIPLE_BLOCK || cmd == WRITE_MULTIPLE_BLOCK
    ensures cmd == READ_MULTIPLE_BLOCK ==> m == Some(ReadMode(defs, cfg))
    ensures cmd == WRITE_MULTIPLE_BLOCK ==> m == Some(WriteMode(defs, cfg))
  {
    if cmd == READ_MULTIPLE_BLOCK then Some(ReadMode(defs, cfg))
    else if cmd == WRITE_MULTIPLE_BLOCK then Some(WriteMode(defs, cfg))
    else None
  }

  /** The DMA bit, present when SDMA is compiled in. */
  function DmaMode(defs: HostDefs, cfg: Config): bv16
  {
    if cfg.sdmaDefined then defs.trnsDma else 0
  }

  /** READ_MULTIPLE_BLOCK: read, multi-block, block-count enable and auto CMD12. */
  function ReadMode(defs: HostDefs, cfg: Config): bv16
  {
    defs.trnsRead | defs.trnsMulti | defs.trnsBlkCntEn | defs.trnsAcmd12 | DmaMode(defs, cfg)
  }

  /** WRITE_MULTIPLE_BLOCK: the same without the read bit. */
  function WriteMode(defs: HostDefs, cfg: Config): bv16
  {
    defs.trnsMulti | defs.trnsBlkCntEn | defs.trnsAcmd12 | DmaMode(defs, cfg)
  }

  /** The read mode is the write mode plus the read bit. */
  lemma ReadModeIsWriteModeRead(defs: HostDefs, cfg: Config)
    ensures ReadMode(defs, cfg) == WriteMode(defs, cfg) | defs.trnsRead
  {
    var rd, a, b, c, d := defs.trnsRead, defs.trnsMulti, defs.trnsBlkCntEn, defs.trnsAcmd12, DmaMode(defs, cfg);
    assert rd | a | b | c | d == (a | b | c | d) | rd;
  }

  /** Both modes ask for a counted multi-block transfer ended by auto CMD12, by
      DMA when SDMA is compiled in. */
  lemma WriteModeBits(defs: HostDefs, cfg: Config)
    ensures WriteMode(defs, cfg) & defs.trnsMulti == defs.trnsMulti
    ensures WriteMode(defs, cfg) & defs.trnsBlkCntEn == defs.trnsBlkCntEn
    ensures WriteMode(defs, cfg) & defs.trnsAcmd12 == defs.trnsAcmd12
    ensures WriteMode(defs, cfg) & DmaMode(defs, cfg) == DmaMode(defs, cfg)
  {
    var a, b, c, d := defs.trnsMulti, defs.trnsBlkCntEn, defs.trnsAcmd12, DmaMode(defs, cfg);
    HasFirst(a, b, c, d);
    HasSecond(a, b, c, d);
    HasThird(a, b, c, d);
    HasFourth(a, b, c, d);
  }

  // Local helpers of WriteModeBits: an OR of four words has each of their bits.
  // One bit-level fact per lemma; the solver handles them far more cheaply
  // apart than together in one proof.
  lemma HasFirst(a: bv16, b: bv16, c: bv16, d: bv16)
    ensures (a | b | c | d) & a == a
  {
  }

  lemma HasSecond(a: bv16, b: bv16, c: bv16, d: bv16)
    ensures (a | b | c | d) & b == b
  {
  }

  lemma HasThird(a: bv16, b: bv16, c: bv16, d: bv16)
    ensures (a | b | c | d) & c == c
  {
  }

  lemma HasFourth(a: bv16, b: bv16, c: bv16, d: bv16)
    ensures (a | b | c | d) & d == d
  {
  }
}
