/**
 * The host controller as the driver sees it: the register block it writes,
 * the values the hardware presents when the driver reads a volatile register,
 * the request buffer (IOMemoryDescriptor) and the trace of what the driver
 * asked of the hardware.
 */
module Hardware {
  import opened RegisterMap
  import opened SdCommands
  import CardRegisters

  /** What the hardware answers. Every read of PresentState or NormalIntStatus, and
      every wait on the SDMA condition, takes the next sample of a shared read
      clock; the Response registers hold the response to the most recent command,
      so they are indexed by the number of commands issued so far; words of the
      data port come in read order. `caps` is
      Capabilities[0]; `timedOut(t)` says whether the SDMA sleep at read t ends by
      its deadline; `mapOk` says whether mapping the register memory succeeds on
      the n-th attempt. */
  datatype Device = Device(
    caps: bv32,
    presentState: nat -> bv32,
    intStatus: nat -> bv16,
    errStatus: nat -> bv16,
    timedOut: nat -> bool,
    response: nat -> CardRegisters.Response,
    dataPort: nat -> bv32,
    mapOk: nat -> bool,
    horizon: nat)

  /** The hardware eventually answers: from read `horizon` on, NormalIntStatus
      reports an error, and from command `horizon` on the card reports power-up
      done in OCR bit 31. The driver spins on these without a bound. */
  ghost predicate Live(d: Device)
  {
    (forall t :: t >= d.horizon ==> Errored(d.intStatus(t)))
    && (forall n :: n >= d.horizon ==> PoweredUp(d.response(n)))
  }

  /** A NormalIntStatus value with the error-interrupt bit set. */
  predicate Errored(nis: bv16)
  {
    nis & ErrorInterrupt != 0
  }

  /** A NormalIntStatus value with at least one of the bits of mask set. */
  predicate AnyOf(nis: bv16, mask: bv16)
  {
    nis & mask != 0
  }

  /** An ACMD41 response (OCR) with the power-up status bit 31 set: the card has
      finished its power-up routine. */
  predicate PoweredUp(r: CardRegisters.Response)
  {
    r.r0 & MMC_CARD_BUSY != 0
  }

  /** What the driver asked of the hardware, in order. */
  datatype Event =
      Cmd(index: bv8, code: bv16, arg: bv32, waitedForLine: bool)  // a command written to the controller
    | ResetIssued(kind: bv8)                                      // SoftwareReset written
    | ToBuffer(offset: nat, length: nat)                          // bounce buffer copied into the request buffer
    | FromBuffer(offset: nat, length: nat)                        // request buffer copied into the bounce buffer
    | Transfer(write: bool, multi: bool, block: nat, count: nat, offset: nat) // one PIO routine run
    | Lock
    | Unlock
    | Completed(bytes: nat)                                       // the completion action called with success

  /** The registers the driver writes, at their declared widths. PresentState,
      Response, BufferDataPort reads and Capabilities come from the Device;
      `dataOut` holds the words written to BufferDataPort, in order; the status
      registers hold the value last written to them (their bits are write-1-to-clear). */
  class RegisterBlock {
    var sdmaSysAddr: bv32
    var blockSize: bv16
    var blockCount: bv16
    var argument: bv32
    var transferMode: bv16
    var command: bv16
    var dataOut: seq<bv32>
    var hostControl: bv8
    var powerControl: bv8
    var clockControl: bv16
    var timeoutControl: bv8
    var softwareReset: bv8
    var normalIntStatus: bv16
    var errorIntStatus: bv16
    var normalIntStatusEn: bv16
    var errorIntStatusEn: bv16
    var normalIntSignalEn: bv16
    var errorIntSignalEn: bv16

    /** The block as mapped: every register reads as zero. */
    constructor ()
      ensures sdmaSysAddr == 0 && blockSize == 0 && blockCount == 0 && argument == 0
      ensures transferMode == 0 && command == 0 && dataOut == [] && hostControl == 0
      ensures powerControl == 0 && clockControl == 0 && timeoutControl == 0 && softwareReset == 0
      ensures normalIntStatus == 0 && errorIntStatus == 0 && normalIntStatusEn == 0
      ensures errorIntStatusEn == 0 && normalIntSignalEn == 0 && errorIntSignalEn == 0
    {
      sdmaSysAddr, blockSize, blockCount, argument := 0, 0, 0, 0;
      transferMode, command, dataOut, hostControl := 0, 0, [], 0;
      powerControl, clockControl, timeoutControl, softwareReset := 0, 0, 0, 0;
      normalIntStatus, errorIntStatus, normalIntStatusEn := 0, 0, 0;
      errorIntStatusEn, normalIntSignalEn, errorIntSignalEn := 0, 0, 0;
    }
  }

  /** `bytes` with `data` written from `offset` on, clipped to the length of `bytes`,
      as IOMemoryDescriptor::writeBytes does. */
  function Overwrite(bytes: seq<bv8>, offset: nat, data: seq<bv8>): (r: seq<bv8>)
    ensures |r| == |bytes|
  {
    seq(|bytes|, i requires 0 <= i < |bytes| => if offset <= i < offset + |data| then data[i - offset] else bytes[i])
  }

  /** An overwrite changes exactly the bytes it covers inside the buffer, each to
      the matching byte of the data. */
  lemma OverwriteMeaning(bytes: seq<bv8>, offset: nat, data: seq<bv8>)
    ensures forall i :: 0 <= i < |bytes| && !(offset <= i < offset + |data|) ==> Overwrite(bytes, offset, data)[i] == bytes[i]
    ensures forall i :: 0 <= i < |bytes| && offset <= i < offset + |data| ==> Overwrite(bytes, offset, data)[i] == data[i - offset]
  {
  }

  /** The `length` bytes of `bytes` from `offset` on, cut short where `bytes` ends,
      as IOMemoryDescriptor::readBytes copies them. */
  function Clip(bytes: seq<bv8>, offset: nat, length: nat): (r: seq<bv8>)
    ensures |r| <= length
  {
    if offset >= |bytes| then []
    else if offset + length <= |bytes| then bytes[offset..offset + length]
    else bytes[offset..]
  }

  /** A read inside the buffer returns its bytes; one that runs past the end
      returns the bytes up to the end. */
  lemma ClipMeaning(bytes: seq<bv8>, offset: nat, length: nat)
    ensures offset + length <= |bytes| ==> Clip(bytes, offset, length) == bytes[offset..offset + length]
    ensures |Clip(bytes, offset, length)| == if offset >= |bytes| then 0 else if offset + length <= |bytes| then length else |bytes| - offset
    ensures forall i :: 0 <= i < |Clip(bytes, offset, length)| ==> Clip(bytes, offset, length)[i] == bytes[offset + i]
  {
  }

  /** The request buffer of a transfer: its bytes and its direction (`toMemory` for
      a read from the card, kIODirectionIn). */
  class IoBuffer {
    var bytes: seq<bv8>
    const toMemory: bool

    constructor (content: seq<bv8>, isRead: bool)
      ensures bytes == content && toMemory == isRead
    {
      bytes := content;
      toMemory := isRead;
    }

    /** writeBytes: copy `data` into the buffer at `offset`, clipped at its end. */
    method WriteBytes(offset: nat, data: seq<bv8>)
      modifies this`bytes
      ensures bytes == Overwrite(old(bytes), offset, data)
    {
      bytes := Overwrite(bytes, offset, data);
    }

    /** readBytes: the `length` bytes at `offset`, or fewer where the buffer ends. */
    method ReadBytes(offset: nat, length: nat) returns (data: seq<bv8>)
      ensures data == Clip(bytes, offset, length)
    {
      data := Clip(bytes, offset, length);
    }
  }
}
