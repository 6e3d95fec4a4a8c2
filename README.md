# EIP76D TRNG driver model

A Dafny model of the TI K3 EIP76D true random number generator driver,
`core/arch/arm/plat-k3/drivers/eip76d_trng.c`, with proofs about what it does.

The driver has three parts. All three are modelled:

- **Enable/configure sequence.** `eip76d_rng_init_seq` and `eip76d_rng_is_enabled`.
  The init sequence writes CONFIG, FRODETUNE, FROENABLE and CONTROL in that order.
  `eip76d_rng_init` only runs that sequence.
- **128-bit read with self-healing.** `eip76d_rng_read128`.
  - It re-runs the init sequence when CONTROL's enable bit is clear.
  - It then polls STATUS until READY. A STATUS read that is not ready is followed by a second STATUS read.
  - When the second read shows SHUTDOWN_OFLO, a recovery step runs. It clears ALARMMASK and ALARMSTOP,
    toggles the oscillators in alarm in FRODETUNE, re-enables all 24 oscillators and acknowledges the overflow.
  - Finally it reads OUTPUT_0..3 and acknowledges READY through INTACK.
- **16-byte FIFO.** `hw_get_random_bytes`. A static union of four 32-bit words and 16 bytes, plus a static
  cursor `fifo_pos`. The union is refilled by one 128-bit read exactly when the cursor is 0. Each iteration
  hands out one byte and advances the cursor modulo 16.

Files and modules:

- `regs.dfy` (`Eip76dRegs`): register offsets, bits and the CONFIG bit-field packing.
- `device.dfy` (`Eip76dDevice`): the register block.
  - `Hw` is its abstract state: the stored registers, the engine's behaviour as two finite traces with
    cursors, and a log of every `io_write32`.
  - The STATUS trace gives what successive STATUS reads return, with the ALARMSTOP value the engine has
    latched by then.
  - The result trace gives the 128-bit results the engine presents, oldest first.
  - INTACK shares offset 0x10 with STATUS. A write there is logged and may release the current result.
    It never stores a STATUS value.
  - `Device` is a class whose `Read32`, `ReadStatus` and `Write32` methods are `io_read32`/`io_write32`.
- `driver.dfy` (`Eip76dDriver`): each driver operation twice.
  - First as a function on `Hw` (`AfterInitSeq`, `AfterRecovery`, `PollStep`, `AfterPoll`, `Read128Result`).
  - Then as a method on `Device` that issues the same accesses in the same order, and is proved to have that
    function's effect.
  - Lemmas state what the functions guarantee.
- `fifo.dfy` (`Eip76dFifo`): the FIFO.
  - The little-endian byte view of the union.
  - `Serve`, a function specifying one call of `hw_get_random_bytes`, and its lemmas: byte placement,
    cursor and refill arithmetic, and the stream of bytes successive calls hand out.
  - The class `Fifo` with the static state, whose `GetRandomBytes` method runs the source's loop and is
    proved against `Serve` and the device functions.

The code defines a startup-cycle count, `RNG_CONTROL_STARTUP_CYCLES` (0xff), and the CONTROL field for it,
bits 31:16 (lines 41-42, 54). It never writes them: line 87 writes only `ENABLE_TRNG` (0x400) to CONTROL.
`InitSeqConfigures` proves the startup-cycle field stays 0.

## Model

| member | source | states |
|---|---|---|
| Eip76dRegs.BitsAsDefined | core/arch/arm/plat-k3/drivers/eip76d_trng.c:27-31 | READY is bit 0, SHUTDOWN_OFLO is bit 1, ENABLE_TRNG is bit 10 |
| Eip76dRegs.PackConfig | core/arch/arm/plat-k3/drivers/eip76d_trng.c:74-78 | OR-ing the min and max refill values in at shifts 0 and 16 gives a CONFIG word whose bits 7:0 and 31:16 read back exactly those values |
| Eip76dDevice.WritesAreLogged | core/arch/arm/plat-k3/drivers/eip76d_trng.c:79-87 | a list of register writes appends exactly those writes, in order, to the log and reads no STATUS sample |
| Eip76dDevice.WriteControl | core/arch/arm/plat-k3/drivers/eip76d_trng.c:87 | a CONTROL write stores the value there, logs it and changes nothing else |
| Eip76dDevice.WriteConfig | core/arch/arm/plat-k3/drivers/eip76d_trng.c:79 | a CONFIG write stores the value there, logs it and changes nothing else |
| Eip76dDevice.WriteFroEnable | core/arch/arm/plat-k3/drivers/eip76d_trng.c:85 | a FROENABLE write stores the value there, logs it and changes nothing else |
| Eip76dDevice.WriteFroDetune | core/arch/arm/plat-k3/drivers/eip76d_trng.c:82 | a FRODETUNE write stores the value there, logs it and changes nothing else |
| Eip76dDevice.WriteAlarmMask | core/arch/arm/plat-k3/drivers/eip76d_trng.c:104 | an ALARMMASK write stores the value there, logs it and changes nothing else |
| Eip76dDevice.WriteAlarmStop | core/arch/arm/plat-k3/drivers/eip76d_trng.c:105 | an ALARMSTOP write stores the value there, logs it and changes nothing else |
| Eip76dDevice.AckOverflow | core/arch/arm/plat-k3/drivers/eip76d_trng.c:111 | acknowledging SHUTDOWN_OFLO through INTACK only logs the write; the current result stays |
| Eip76dDevice.AckReady | core/arch/arm/plat-k3/drivers/eip76d_trng.c:122 | acknowledging READY through INTACK releases the current result and logs the write, nothing else |
| Eip76dDevice.IntAckStoresNothing | core/arch/arm/plat-k3/drivers/eip76d_trng.c:26-29 | INTACK shares offset 0x10 with STATUS, yet a write there stores into no register and leaves the STATUS trace, its cursor and the result trace unchanged |
| Eip76dDevice.IntAckReleasesResult | core/arch/arm/plat-k3/drivers/eip76d_trng.c:111-122 | an INTACK write releases a result if and only if its value has the READY bit |
| Eip76dDevice.ReadBackAfterWrite | core/arch/arm/plat-k3/drivers/eip76d_trng.c:100-107 | a stored register reads back the last value written to it |
| Eip76dDevice.Device.constructor | core/arch/arm/plat-k3/drivers/eip76d_trng.c:65 | the device handle `rng` starts in the given abstract state |
| Eip76dDevice.Device.Read32 | core/arch/arm/plat-k3/drivers/eip76d_trng.c:69 | `io_read32` of a register other than STATUS returns its abstract value and changes nothing |
| Eip76dDevice.Device.ReadStatus | core/arch/arm/plat-k3/drivers/eip76d_trng.c:97-99 | a STATUS read returns the next sample and latches that sample's ALARMSTOP |
| Eip76dDevice.Device.Write32 | core/arch/arm/plat-k3/drivers/eip76d_trng.c:79 | `io_write32` has exactly the abstract effect of one write |
| Eip76dDriver.InitConfig | core/arch/arm/plat-k3/drivers/eip76d_trng.c:74-78 | the CONFIG value the init sequence builds is 0x00220005 |
| Eip76dDriver.AfterInitSeq | core/arch/arm/plat-k3/drivers/eip76d_trng.c:72-88 | after the init sequence `eip76d_rng_is_enabled` holds; the sequence reads no STATUS sample and releases no result |
| Eip76dDriver.InitWritesValues | core/arch/arm/plat-k3/drivers/eip76d_trng.c:79-87 | the init sequence's writes are CONFIG(0x18) := 0x00220005, FRODETUNE(0x24) := 0, FROENABLE(0x20) := 0xffffff, CONTROL(0x14) := 0x400, in that order; ALARMCNT is not written |
| Eip76dDriver.InitSeqIsItsWrites | core/arch/arm/plat-k3/drivers/eip76d_trng.c:72-88 | the summary `AfterInitSeq` is exactly the effect of those four writes issued in order |
| Eip76dDriver.InitSeqConfigures | core/arch/arm/plat-k3/drivers/eip76d_trng.c:72-88 | after the init sequence the engine is enabled, CONTROL's startup-cycle field is 0, CONFIG's refill fields are 5 and 0x22, nothing is de-tuned and all 24 oscillators are enabled |
| Eip76dDriver.InitSeq | core/arch/arm/plat-k3/drivers/eip76d_trng.c:72-88 | `eip76d_rng_init_seq` leaves the device in `AfterInitSeq` of its entry state |
| Eip76dDriver.IsEnabled | core/arch/arm/plat-k3/drivers/eip76d_trng.c:67-70 | `eip76d_rng_is_enabled` is true if and only if CONTROL's bit 10 is set |
| Eip76dDriver.AfterRecovery | core/arch/arm/plat-k3/drivers/eip76d_trng.c:100-111 | toggling the new FRODETUNE with the same ALARMSTOP value gives back the old FRODETUNE; CONTROL, CONFIG, the STATUS and result traces and their cursors are unchanged |
| Eip76dDriver.RecoveryWritesValues | core/arch/arm/plat-k3/drivers/eip76d_trng.c:104-111 | a recovery step writes ALARMMASK(0x28) := 0, ALARMSTOP(0x2C) := 0, FRODETUNE(0x24) := tune ^ alarm, FROENABLE(0x20) := 0xffffff, INTACK(0x10) := 0x2, in that order |
| Eip76dDriver.RecoveryIsItsWrites | core/arch/arm/plat-k3/drivers/eip76d_trng.c:100-111 | the summary `AfterRecovery` is exactly the effect of those five writes, built from the FRODETUNE and ALARMSTOP values read first |
| Eip76dDriver.RecoveryDetunes | core/arch/arm/plat-k3/drivers/eip76d_trng.c:100-107 | recovery leaves FRODETUNE as the old FRODETUNE XOR the old ALARMSTOP |
| Eip76dDriver.DetunedTwice | core/arch/arm/plat-k3/drivers/eip76d_trng.c:107 | toggling the same oscillators twice restores the de-tune mask |
| Eip76dDriver.RecoveryTwiceRestoresDetune | core/arch/arm/plat-k3/drivers/eip76d_trng.c:100-107 | two recovery steps with the same ALARMSTOP snapshot restore the original de-tune mask |
| Eip76dDriver.Recover | core/arch/arm/plat-k3/drivers/eip76d_trng.c:100-111 | the recovery branch leaves the device in `AfterRecovery` of its entry state |
| Eip76dDriver.PollStepAdvances | core/arch/arm/plat-k3/drivers/eip76d_trng.c:97-99 | a poll iteration reads one STATUS sample when it sees READY and two when it does not |
| Eip76dDriver.PollStepKeeps | core/arch/arm/plat-k3/drivers/eip76d_trng.c:97-115 | a poll iteration releases no result and changes neither CONTROL nor CONFIG |
| Eip76dDriver.PollStepLog | core/arch/arm/plat-k3/drivers/eip76d_trng.c:97-112 | a poll iteration writes one recovery step, built from the latched ALARMSTOP, exactly when READY is clear and the second read shows SHUTDOWN_OFLO, and writes nothing otherwise |
| Eip76dDriver.PollStepDetunes | core/arch/arm/plat-k3/drivers/eip76d_trng.c:99-107 | a poll iteration that recovers toggles exactly the oscillators in alarm |
| Eip76dDriver.IdlePollWritesNothing | core/arch/arm/plat-k3/drivers/eip76d_trng.c:97-115 | a poll iteration that sees neither READY nor SHUTDOWN_OFLO writes no register and goes on waiting |
| Eip76dDriver.ReadyExitsAtOnce | core/arch/arm/plat-k3/drivers/eip76d_trng.c:97 | seeing READY at the first read ends the wait after one STATUS read, with no recovery and no write |
| Eip76dDriver.AfterPollUnfold | core/arch/arm/plat-k3/drivers/eip76d_trng.c:97-115 | the wait loop stops after the iteration that sees READY and otherwise continues from where that iteration left the device |
| Eip76dDriver.AfterPollEndsOnReady | core/arch/arm/plat-k3/drivers/eip76d_trng.c:97 | the wait ends right after a STATUS read that shows READY, and never reads past the STATUS trace |
| Eip76dDriver.AfterPollKeeps | core/arch/arm/plat-k3/drivers/eip76d_trng.c:97-115 | the whole wait releases no result and changes neither CONTROL nor CONFIG |
| Eip76dDriver.AfterPollLog | core/arch/arm/plat-k3/drivers/eip76d_trng.c:97-115 | everything the wait writes is a sequence of complete recovery steps |
| Eip76dDriver.PollOnce | core/arch/arm/plat-k3/drivers/eip76d_trng.c:97-112 | the loop condition and body have the effect of `PollStep` |
| Eip76dDriver.WaitReady | core/arch/arm/plat-k3/drivers/eip76d_trng.c:96-115 | the wait loop has the effect of `AfterPoll` |
| Eip76dDriver.PreparedKeepsTraces | core/arch/arm/plat-k3/drivers/eip76d_trng.c:93-115 | re-initialising and waiting release no result and keep the engine's traces |
| Eip76dDriver.Read128Returns | core/arch/arm/plat-k3/drivers/eip76d_trng.c:117-120 | the four words returned are the result the engine presents on OUTPUT_0..3, in that order |
| Eip76dDriver.Read128Advances | core/arch/arm/plat-k3/drivers/eip76d_trng.c:121-122 | the read acknowledges exactly that result, and the engine moves on to the next |
| Eip76dDriver.PollThenAckLog | core/arch/arm/plat-k3/drivers/eip76d_trng.c:97-122 | after the wait and the acknowledgement, the log holds recovery steps only, then INTACK := READY as the last write |
| Eip76dDriver.Read128Log | core/arch/arm/plat-k3/drivers/eip76d_trng.c:90-123 | a 128-bit read writes the init sequence exactly when the device was disabled on entry, then only complete recovery steps, then INTACK := READY last |
| Eip76dDriver.Read128InitsIffDisabled | core/arch/arm/plat-k3/drivers/eip76d_trng.c:93-94 | a 128-bit read's first write is the init sequence's CONFIG write if and only if the enable bit was clear on entry |
| Eip76dDriver.Read128 | core/arch/arm/plat-k3/drivers/eip76d_trng.c:90-123 | `eip76d_rng_read128` leaves the device in, and returns the words of, `Read128Result` of its entry state |
| Eip76dDriver.Init | core/arch/arm/plat-k3/drivers/eip76d_trng.c:152-161 | `eip76d_rng_init` runs the init sequence, leaves the engine enabled and returns TEE_SUCCESS |
| Eip76dFifo.LeBytesRoundTrip | core/arch/arm/plat-k3/drivers/eip76d_trng.c:127-130 | a word's four little-endian bytes read back as a word give the word |
| Eip76dFifo.FifoByteLayout | core/arch/arm/plat-k3/drivers/eip76d_trng.c:127-130 | byte 4i+k of the union is bits 8k..8k+7 of word i |
| Eip76dFifo.FifoBytesHoldWords | core/arch/arm/plat-k3/drivers/eip76d_trng.c:127-130 | bytes 4i..4i+3 of the union, read back little-endian, give word i: the byte view loses and mixes nothing |
| Eip76dFifo.NextPosIsIncrementMod16 | core/arch/arm/plat-k3/drivers/eip76d_trng.c:143-144 | the cursor step is `fifo_pos++` then `fifo_pos %= 16` |
| Eip76dFifo.RefillsClosedForm | core/arch/arm/plat-k3/drivers/eip76d_trng.c:135-144 | the number of refills a call makes from cursor p is the number of multiples of 16 in [p, p + len) |
| Eip76dFifo.RefillsBound | core/arch/arm/plat-k3/drivers/eip76d_trng.c:135-144 | a call makes at most ceil(len / 16) refills, and exactly that many from cursor 0 |
| Eip76dFifo.PosAfterIsMod16 | core/arch/arm/plat-k3/drivers/eip76d_trng.c:143-144 | k cursor steps from p land on (p + k) % 16 |
| Eip76dFifo.RefillsStepUnderCursor | core/arch/arm/plat-k3/drivers/eip76d_trng.c:139-144 | step k of a call adds a refill exactly when the cursor is 0 at the start of that step |
| Eip76dFifo.RefillIffCursorZero | core/arch/arm/plat-k3/drivers/eip76d_trng.c:139-144 | a refill happens at step k of a call from cursor p if and only if (p + k) % 16 == 0 |
| Eip76dFifo.Serve | core/arch/arm/plat-k3/drivers/eip76d_trng.c:131-147 | the cursor left by a call is in [0, 16) |
| Eip76dFifo.ServeLength | core/arch/arm/plat-k3/drivers/eip76d_trng.c:135-143 | a call writes len bytes |
| Eip76dFifo.ServeEndPos | core/arch/arm/plat-k3/drivers/eip76d_trng.c:143-144 | a call from cursor p leaves the cursor at (p + len) % 16 |
| Eip76dFifo.ServeRefills | core/arch/arm/plat-k3/drivers/eip76d_trng.c:139-141 | a call reads exactly `RefillsNeeded` results |
| Eip76dFifo.ServeNothing | core/arch/arm/plat-k3/drivers/eip76d_trng.c:135-149 | a call of length 0 reads nothing, writes nothing and leaves the cache and cursor alone |
| Eip76dFifo.ServeStepPending | core/arch/arm/plat-k3/drivers/eip76d_trng.c:139-144 | one iteration hands out the first pending byte and leaves the rest pending |
| Eip76dFifo.ServeDeliversPending | core/arch/arm/plat-k3/drivers/eip76d_trng.c:135-147 | a call hands out the first len pending bytes, and what stays pending is exactly the rest |
| Eip76dFifo.ServeByteUnderCursor | core/arch/arm/plat-k3/drivers/eip76d_trng.c:143 | output byte k is the byte under the cursor at step k, of the block in the union at that step |
| Eip76dFifo.ServeByteAt | core/arch/arm/plat-k3/drivers/eip76d_trng.c:139-144 | output byte k of a call from cursor p is byte (p + k) % 16 of the block in the union at that step: the cached one before the first refill, the latest result read afterwards |
| Eip76dFifo.ConsecutiveCalls | core/arch/arm/plat-k3/drivers/eip76d_trng.c:127-147 | two calls in a row hand out consecutive pieces of one stream, with no byte skipped or repeated |
| Eip76dFifo.CanReadNeedsResults | core/arch/arm/plat-k3/drivers/eip76d_trng.c:139-141 | an engine that can serve n successive 128-bit reads has n results still to present |
| Eip76dFifo.ReadsNReleases | core/arch/arm/plat-k3/drivers/eip76d_trng.c:139-141 | n successive 128-bit reads release exactly n results |
| Eip76dFifo.ServeOnTrackStep | core/arch/arm/plat-k3/drivers/eip76d_trng.c:139-144 | one iteration keeps the bytes written so far a prefix of the call's goal |
| Eip76dFifo.DeviceOnTrackStep | core/arch/arm/plat-k3/drivers/eip76d_trng.c:139-141 | with the cursor at 0 one iteration makes one 128-bit read, which returns the next result; otherwise it leaves the device alone |
| Eip76dFifo.OnTrackStep | core/arch/arm/plat-k3/drivers/eip76d_trng.c:135-147 | one iteration keeps the call on track for its goal on both the byte and the device side |
| Eip76dFifo.OnTrackStart | core/arch/arm/plat-k3/drivers/eip76d_trng.c:133-135 | a call is on track at its start |
| Eip76dFifo.OnTrackFinish | core/arch/arm/plat-k3/drivers/eip76d_trng.c:135-149 | a call on track with no bytes left has reached its goal |
| Eip76dFifo.Fifo.constructor | core/arch/arm/plat-k3/drivers/eip76d_trng.c:127-131 | the static union and cursor start zeroed |
| Eip76dFifo.Fifo.Refill | core/arch/arm/plat-k3/drivers/eip76d_trng.c:139-141 | a refill stores the result of one `eip76d_rng_read128` in the union and keeps the cursor |
| Eip76dFifo.Fifo.TakeByte | core/arch/arm/plat-k3/drivers/eip76d_trng.c:143-144 | the byte under the cursor is written to slot `at`, no other slot changes, and the cursor advances modulo 16 |
| Eip76dFifo.Fifo.ServeOne | core/arch/arm/plat-k3/drivers/eip76d_trng.c:136-146 | one iteration refills if and only if the cursor is 0, then hands out one byte: one `Advance` of the call's progress |
| Eip76dFifo.Fifo.GetRandomBytes | core/arch/arm/plat-k3/drivers/eip76d_trng.c:125-150 | a call writes exactly `Serve`'s bytes to buf[0..len) and nothing beyond, leaves the cache `Serve` gives, with the cursor in [0, 16), makes `RefillsNeeded` 128-bit reads and returns TEE_SUCCESS |

## Left out

- The mutex `fifo_lock` (lines 64, 136, 146): the model has one sequential caller. Interleaving of concurrent callers is not modelled.
- `register_phys_mem_pgdir` and `phys_to_virt` (lines 62, 154): address mapping through platform calls. The handle `rng` is an abstract `Device`, and `Init` does not map it.
- `DMSG` and `IMSG` (lines 113, 158): logging with no effect on state.
- Hardware behaviour and termination of the wait loop. What the engine does is given as finite traces fixed when the device is found. `PollsToReady` says the STATUS trace eventually shows READY. `Read128Ok` and `CanRead` say the engine has results to present and that no more results were released than it produced. The driver itself has no timeout.
- How ALARMSTOP is set: each STATUS sample carries the ALARMSTOP value the engine has latched by then. Other engine-side register changes between reads are not modelled.
- The startup-cycle, ALARMCNT and threshold constants (lines 41-42, 49-58), `RNG_OPTIONS` and `RNG_EIP_REV` (lines 38-39). They are defined but never read or written by the code.
- Statistical quality of the random output.
- Eip76dFifo.Fifo.GetRandomBytes: the body of its loop is two helper methods, `Refill` and `TakeByte`, joined by `ServeOne`. The accesses are the same and in the same order as in the source.
- Eip76dFifo.Fifo.GetRandomBytes: `buf` is an array of bytes whose length bounds `len`. The caller's `void *buf` argument and any aliasing of `buf` with the static union are not modelled.
