/**
 * Register layout and bit fields of the TI K3 EIP76D true random number
 * generator, as the driver in core/arch/arm/plat-k3/drivers/eip76d_trng.c
 * uses them. Every register is 32 bits wide; offsets are from the device base.
 */
module Eip76dRegs {

  type Word = bv32
  type Byte = bv8

  /** `BIT(n)`: the word with only bit n set. */
  function Bit(n: bv32): (w: Word)
    requires n < 32
  {
    1 << n
  }

  // Register offsets.
  const RngOutput0: nat := 0x00
  const RngOutput1: nat := 0x04
  const RngOutput2: nat := 0x08
  const RngOutput3: nat := 0x0C
  const RngStatus: nat := 0x10
  /** Acknowledge register; it shares its offset with STATUS. */
  const RngIntAck: nat := 0x10
  const RngControl: nat := 0x14
  const RngConfig: nat := 0x18
  const RngAlarmCnt: nat := 0x1C
  const RngFroEnable: nat := 0x20
  const RngFroDetune: nat := 0x24
  const RngAlarmMask: nat := 0x28
  const RngAlarmStop: nat := 0x2C

  // Bits of STATUS / INTACK and of CONTROL, written out (see BitsAsDefined).
  const RngReady: Word := 0x0000_0001
  const ShutdownOflo: Word := 0x0000_0002
  const EnableTrng: Word := 0x0000_0400

  /** READY is BIT(0), SHUTDOWN_OFLO is BIT(1), ENABLE_TRNG is BIT(10). */
  lemma BitsAsDefined()
    ensures RngReady == Bit(0) && ShutdownOflo == Bit(1) && EnableTrng == Bit(10)
  {
  }

  // Fields of CONFIG, and the refill-cycle values the driver programs.
  const ConfigMinRefilCyclesShift: bv32 := 0
  const ConfigMaxRefilCyclesShift: bv32 := 16
  const ConfigMinRefilCyclesMask: Word := 0x0000_00ff   // GENMASK_32(7, 0)
  const ConfigMaxRefilCyclesMask: Word := 0xffff_0000   // GENMASK_32(31, 16)
  const ConfigMinRefilCycles: Word := 0x5
  const ConfigMaxRefilCycles: Word := 0x22

  /** Startup-cycle field of CONTROL (bits 31:16); the driver never sets it. */
  const ControlStartupCyclesMask: Word := 0xffff_0000   // GENMASK_32(31, 16)

  /** All 24 free-running oscillators: GENMASK_32(23, 0). */
  const RngFroMask: Word := 0x00ff_ffff

  predicate IsOutput(off: nat) {
    off == RngOutput0 || off == RngOutput1 || off == RngOutput2 || off == RngOutput3
  }

  /** The minimum-refill field of a CONFIG word (bits 7:0). */
  function MinRefilField(w: Word): (f: Word) {
    (w & ConfigMinRefilCyclesMask) >> ConfigMinRefilCyclesShift
  }

  /** The maximum-refill field of a CONFIG word (bits 31:16). */
  function MaxRefilField(w: Word): (f: Word) {
    (w & ConfigMaxRefilCyclesMask) >> ConfigMaxRefilCyclesShift
  }

  /**
   * The CONFIG word built as the init sequence builds it: each value OR-ed in
   * at its field's shift, starting from 0. Values that fit their fields can
   * be read back from those fields unchanged.
   */
  function PackConfig(minRefil: Word, maxRefil: Word): (w: Word)
    requires minRefil <= 0xff && maxRefil <= 0xffff
    ensures MinRefilField(w) == minRefil
    ensures MaxRefilField(w) == maxRefil
  {
    var val: Word := 0;
    var val := val | (minRefil << ConfigMinRefilCyclesShift);
    val | (maxRefil << ConfigMaxRefilCyclesShift)
  }
}
