/**
 * What the driver takes from outside its own files: the Linux-derived SDHCI
 * constants of sdhci.h, which is not part of this model, and the compile-time
 * switches at the top of VoodooSDHC.cpp.
 */
module Platform {

  /** The sdhci.h constants the driver uses. Their values are not known here, so
      every property of the model holds for any values of them. */
  datatype HostDefs = HostDefs(
    trnsRead: bv16,       // SDHCI_TRNS_READ
    trnsMulti: bv16,      // SDHCI_TRNS_MULTI
    trnsBlkCntEn: bv16,   // SDHCI_TRNS_BLK_CNT_EN
    trnsAcmd12: bv16,     // SDHCI_TRNS_ACMD12
    trnsDma: bv16,        // SDHCI_TRNS_DMA
    ctrl4BitBus: bv8,     // SDHCI_CTRL_4BITBUS
    ctrlHispd: bv8,       // SDHCI_CTRL_HISPD
    spaceAvailable: bv32) // SDHCI_SPACE_AVAILABLE

  /** The build switches. `sdmaDefined` is `#ifdef USE_SDMA`; `useSdma` and
      `useMultiblock` are the values read by `if (USE_SDMA)` and
      `if (... && USE_MULTIBLOCK)`. */
  datatype Config = Config(
    sdmaDefined: bool,
    useSdma: bool,
    useMultiblock: bool,
    wideBus: bool,        // WIDE_BUS_MODE
    highSpeed: bool,      // HIGHSPEED_CARD_MODE
    readOnly: bool,       // READONLY_DRIVER
    noResetWar: bool)     // NO_RESET_WAR

  /** The switches as the driver ships: 4-bit bus, multi-block and SDMA on, no
      high-speed mode, writes allowed, no reset before every transfer. */
  const Shipped: Config := Config(
    sdmaDefined := true, useSdma := true, useMultiblock := true,
    wideBus := true, highSpeed := false, readOnly := false, noResetWar := true)

  /** SDMA_BUFFER_SIZE, SDMA_BUFFER_SIZE_IN_REG and SDMA_RETRY_COUNT. */
  const SdmaBufferSize: nat := 32768
  const SdmaBufferSizeInReg: bv16 := 0x3000
  const SdmaRetryCount: nat := 5

  /** The return codes of the transfer routines (IOReturn). */
  datatype IoStatus = Success | Error | Timeout | NoMedia

  /** cardPresence (VoodooSDHC.h). */
  datatype Presence = NotPresent | IsPresent | Remount
}
