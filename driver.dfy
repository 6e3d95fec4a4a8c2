/**
 * The hardware controller of the EIP76D driver: the enable/configure
 * sequence, the enabled check, the shutdown-overflow recovery step, the
 * ready-poll loop, and the 128-bit read. Each operation is a function on the
 * abstract device state `Hw` and a method on `Device` that issues the same
 * register accesses in the same order and is proved to have that function's
 * effect; the lemmas state what the functions guarantee.
 */
module Eip76dDriver {
  import opened Eip76dRegs
  import opened Eip76dDevice

  /** TEE_Result; the driver only ever returns TEE_SUCCESS. */
  type TeeResult = bv32
  const TeeSuccess: TeeResult := 0

  // ---------------------------------------------------------------------
  // Specification functions
  // ---------------------------------------------------------------------

  /** `eip76d_rng_is_enabled`: bit 10 of CONTROL. */
  predicate Enabled(h: Hw) {
    RegValue(h, RngControl) & EnableTrng != 0
  }

  /** The CONFIG value the init sequence programs: both refill-cycle limits OR-ed in at their shifts. */
  function InitConfig(): (w: Word)
    ensures w == 0x0022_0005
  {
    PackConfig(ConfigMinRefilCycles, ConfigMaxRefilCycles)
  }

  /** The four writes of `eip76d_rng_init_seq`, in the order it issues them. */
  function InitWrites(): (ws: seq<Write>) {
    [Write(RngConfig, InitConfig()), Write(RngFroDetune, 0x0), Write(RngFroEnable, 0xffffff),
     Write(RngControl, EnableTrng)]
  }

  /** The init sequence's writes with their offsets and values written out. */
  lemma InitWritesValues()
    ensures InitWrites() ==
      [Write(0x18, 0x0022_0005), Write(0x24, 0), Write(0x20, 0x00ff_ffff), Write(0x14, 0x0000_0400)]
  {
  }

  /**
   * `eip76d_rng_init_seq`, summarised: CONFIG, FRODETUNE, FROENABLE and
   * CONTROL take the values it writes, and its writes are logged.
   * `InitSeqIsItsWrites` shows this is exactly the effect of `InitWrites()`.
   */
  function AfterInitSeq(h: Hw): (r: Hw)
    ensures Enabled(r)
    ensures r.samples == h.samples && r.polled == h.polled && r.results == h.results && r.taken == h.taken
  {
    h.(config := InitConfig(), froDetune := 0x0, froEnable := 0xffffff, control := EnableTrng,
       log := h.log + InitWrites())
  }

  /** FRODETUNE with the oscillators flagged in ALARMSTOP toggled. */
  function Detuned(tune: Word, alarm: Word): (w: Word) {
    tune ^ alarm
  }

  /**
   * The five writes of one recovery step, given the FRODETUNE and ALARMSTOP
   * values it read first.
   */
  function RecoveryWrites(tune: Word, alarm: Word): (ws: seq<Write>) {
    [Write(RngAlarmMask, 0x0), Write(RngAlarmStop, 0x0), Write(RngFroDetune, Detuned(tune, alarm)),
     Write(RngFroEnable, RngFroMask), Write(RngIntAck, ShutdownOflo)]
  }

  /**
   * The recovery step run on shutdown overflow, summarised: with the
   * ALARMSTOP and FRODETUNE values it reads first, ALARMMASK and ALARMSTOP
   * are cleared, the oscillators in alarm are toggled in FRODETUNE, all
   * oscillators are re-enabled, and its writes (ending with the SHUTDOWN_OFLO
   * acknowledgement) are logged. `RecoveryIsItsWrites` shows this is exactly
   * the effect of `RecoveryWrites(tune, alarm)`. Toggling with the same
   * ALARMSTOP value again would undo the de-tune; the step leaves CONTROL,
   * CONFIG and the engine's traces alone.
   */
  function AfterRecovery(h: Hw): (r: Hw)
    ensures Detuned(r.froDetune, h.alarmStop) == h.froDetune
    ensures r.control == h.control && r.config == h.config
    ensures r.samples == h.samples && r.polled == h.polled && r.results == h.results && r.taken == h.taken
  {
    h.(alarmMask := 0x0, alarmStop := 0x0, froDetune := Detuned(h.froDetune, h.alarmStop), froEnable := RngFroMask,
       log := h.log + RecoveryWrites(h.froDetune, h.alarmStop))
  }

  /** A recovery step's writes with their offsets and values written out. */
  lemma RecoveryWritesValues(tune: Word, alarm: Word)
    ensures RecoveryWrites(tune, alarm) ==
      [Write(0x28, 0), Write(0x2C, 0), Write(0x24, tune ^ alarm), Write(0x20, 0x00ff_ffff), Write(0x10, 0x2)]
  {
  }

  predicate IsReady(status: Word) {
    status & RngReady != 0
  }

  predicate IsShutdownOflo(status: Word) {
    status & ShutdownOflo != 0
  }

  /** The STATUS trace holds what one poll iteration reads: one sample, or two if the first is not ready. */
  predicate PollStepOk(h: Hw) {
    HasSample(h) && (!IsReady(h.samples[h.polled].status) ==> h.polled + 1 < |h.samples|)
  }

  /**
   * One evaluation of the loop condition of `eip76d_rng_read128`, and the
   * body when it is entered: read STATUS; if READY, stop; otherwise read
   * STATUS again and run the recovery step if it shows SHUTDOWN_OFLO.
   * The second component tells whether READY was seen.
   */
  function PollStep(h: Hw): (r: (Hw, bool))
    requires PollStepOk(h)
  {
    var (h1, status) := StatusRead(h);
    if IsReady(status) then (h1, true)
    else
      var (h2, status2) := StatusRead(h1);
      (if IsShutdownOflo(status2) then AfterRecovery(h2) else h2, false)
  }

  /** The STATUS trace, read from position `i` on, shows READY at some evaluation of the loop condition. */
  predicate PollsToReady(s: seq<Sample>, i: nat)
    decreases |s| - i
  {
    i < |s| && (IsReady(s[i].status) || (i + 1 < |s| && PollsToReady(s, i + 2)))
  }

  /** The whole wait loop of `eip76d_rng_read128`: poll until READY is seen. */
  function AfterPoll(h: Hw): (r: Hw)
    requires PollsToReady(h.samples, h.polled)
    decreases |h.samples| - h.polled
  {
    PollStepAdvances(h);
    var (h1, ready) := PollStep(h);
    if ready then h1 else AfterPoll(h1)
  }

  /** The engine will become ready and has a result to present. */
  predicate Read128Ok(h: Hw) {
    PollsToReady(h.samples, h.polled) && HasResult(h)
  }

  /** What `eip76d_rng_read128` finds before it reads the result: enabled if need be, then READY. */
  function Prepared(h: Hw): (r: Hw)
    requires Read128Ok(h)
  {
    AfterPoll(if Enabled(h) then h else AfterInitSeq(h))
  }

  /**
   * `eip76d_rng_read128`: re-run the init sequence if the device is disabled,
   * wait for READY, read OUTPUT_0..3, acknowledge READY.
   */
  function Read128Result(h: Hw): (r: (Hw, Block))
    requires Read128Ok(h)
  {
    PreparedKeepsTraces(h);
    var p := Prepared(h);
    var block := Block(RegValue(p, RngOutput0), RegValue(p, RngOutput1),
                       RegValue(p, RngOutput2), RegValue(p, RngOutput3));
    (AfterWrite(p, Write(RngIntAck, RngReady)), block)
  }

  /** Five writes shaped as one recovery step, whatever FRODETUNE value it computed. */
  predicate IsRecoveryStep(w: seq<Write>) {
    |w| == 5 &&
    w[0] == Write(RngAlarmMask, 0x0) && w[1] == Write(RngAlarmStop, 0x0) && w[2].offset == RngFroDetune &&
    w[3] == Write(RngFroEnable, RngFroMask) && w[4] == Write(RngIntAck, ShutdownOflo)
  }

  /** A log segment made only of complete recovery steps. */
  predicate RecoveryGroups(w: seq<Write>)
    decreases |w|
  {
    |w| == 0 || (|w| >= 5 && IsRecoveryStep(w[..5]) && RecoveryGroups(w[5..]))
  }

  // ---------------------------------------------------------------------
  // Unfolding the write lists
  // ---------------------------------------------------------------------

  /** Four writes in a row. */
  lemma AfterFourWrites(h: Hw, a: Write, b: Write, c: Write, d: Write)
    ensures AfterWrites(h, [a, b, c, d]) == AfterWrite(AfterWrite(AfterWrite(AfterWrite(h, a), b), c), d)
  {
    var h1 := AfterWrite(h, a);
    var h2 := AfterWrite(h1, b);
    var h3 := AfterWrite(h2, c);
    assert [a, b, c, d][1..] == [b, c, d];
    assert AfterWrites(h, [a, b, c, d]) == AfterWrites(h1, [b, c, d]);
    assert [b, c, d][1..] == [c, d];
    assert AfterWrites(h1, [b, c, d]) == AfterWrites(h2, [c, d]);
    assert [c, d][1..] == [d];
    assert AfterWrites(h2, [c, d]) == AfterWrites(h3, [d]);
    assert [d][1..] == [];
    assert AfterWrites(h3, [d]) == AfterWrites(AfterWrite(h3, d), []);
  }

  /** Five writes in a row. */
  lemma AfterFiveWrites(h: Hw, a: Write, b: Write, c: Write, d: Write, e: Write)
    ensures AfterWrites(h, [a, b, c, d, e]) ==
      AfterWrite(AfterWrite(AfterWrite(AfterWrite(AfterWrite(h, a), b), c), d), e)
  {
    assert [a, b, c, d, e][1..] == [b, c, d, e];
    assert AfterWrites(h, [a, b, c, d, e]) == AfterWrites(AfterWrite(h, a), [b, c, d, e]);
    AfterFourWrites(AfterWrite(h, a), b, c, d, e);
  }

  /** The init sequence, as summarised, is exactly the effect of its four writes issued in order. */
  lemma InitSeqIsItsWrites(h: Hw)
    ensures AfterInitSeq(h) == AfterWrites(h, InitWrites())
  {
    var ws := InitWrites();
    AfterFourWrites(h, ws[0], ws[1], ws[2], ws[3]);
    InitSeqIsItsChain(h);
  }

  /** The init sequence, as summarised, is the effect of its four writes one after another. */
  lemma InitSeqIsItsChain(h: Hw)
    ensures var ws := InitWrites();
      AfterInitSeq(h) == AfterWrite(AfterWrite(AfterWrite(AfterWrite(h, ws[0]), ws[1]), ws[2]), ws[3])
  {
    var ws := InitWrites();
    WriteConfig(h, ws[0].value);
    var h1 := AfterWrite(h, ws[0]);
    WriteFroDetune(h1, ws[1].value);
    var h2 := AfterWrite(h1, ws[1]);
    WriteFroEnable(h2, ws[2].value);
    var h3 := AfterWrite(h2, ws[2]);
    WriteControl(h3, ws[3].value);
    LogFour(h.log, ws[0], ws[1], ws[2], ws[3]);
  }

  /** The recovery step, as summarised, is exactly the effect of its five writes issued in order. */
  lemma RecoveryIsItsWrites(h: Hw)
    ensures AfterRecovery(h) == AfterWrites(h, RecoveryWrites(h.froDetune, h.alarmStop))
  {
    var ws := RecoveryWrites(h.froDetune, h.alarmStop);
    AfterFiveWrites(h, ws[0], ws[1], ws[2], ws[3], ws[4]);
    RecoveryIsItsChain(h);
  }

  /** The recovery step, as summarised, is the effect of its five writes one after another. */
  lemma RecoveryIsItsChain(h: Hw)
    ensures AfterRecovery(h) ==
      AfterWrite(AfterWrite(AfterWrite(AfterWrite(AfterWrite(h,
        Write(RngAlarmMask, 0x0)), Write(RngAlarmStop, 0x0)), Write(RngFroDetune, Detuned(h.froDetune, h.alarmStop))),
        Write(RngFroEnable, RngFroMask)), Write(RngIntAck, ShutdownOflo))
  {
    var ws := RecoveryWrites(h.froDetune, h.alarmStop);
    WriteAlarmMask(h, ws[0].value);
    var h1 := AfterWrite(h, ws[0]);
    WriteAlarmStop(h1, ws[1].value);
    var h2 := AfterWrite(h1, ws[1]);
    WriteFroDetune(h2, ws[2].value);
    var h3 := AfterWrite(h2, ws[2]);
    WriteFroEnable(h3, ws[3].value);
    var h4 := AfterWrite(h3, ws[3]);
    AckOverflow(h4);
    LogFive(h.log, ws[0], ws[1], ws[2], ws[3], ws[4]);
  }

  /** Logging four writes one at a time logs them as one list. */
  lemma LogFour(l: seq<Write>, a: Write, b: Write, c: Write, d: Write)
    ensures l + [a] + [b] + [c] + [d] == l + [a, b, c, d]
  {
  }

  /** Logging five writes one at a time logs them as one list. */
  lemma LogFive(l: seq<Write>, a: Write, b: Write, c: Write, d: Write, e: Write)
    ensures l + [a] + [b] + [c] + [d] + [e] == l + [a, b, c, d, e]
  {
  }

  // ---------------------------------------------------------------------
  // The init sequence and the recovery step
  // ---------------------------------------------------------------------

  /**
   * After the init sequence the engine is enabled with no startup cycles
   * programmed, CONFIG holds the refill-cycle limits 5 and 0x22, no
   * oscillator is de-tuned and all 24 are enabled.
   */
  lemma InitSeqConfigures(h: Hw)
    ensures Enabled(AfterInitSeq(h))
    ensures AfterInitSeq(h).control & ControlStartupCyclesMask == 0
    ensures MinRefilField(AfterInitSeq(h).config) == 5 && MaxRefilField(AfterInitSeq(h).config) == 0x22
    ensures AfterInitSeq(h).froDetune == 0 && AfterInitSeq(h).froEnable == RngFroMask
  {
  }

  /** Applying the recovery step twice with the same ALARMSTOP snapshot restores the de-tune mask. */
  lemma RecoveryTwiceRestoresDetune(h: Hw)
    ensures AfterRecovery(AfterRecovery(h).(alarmStop := h.alarmStop)).froDetune == h.froDetune
  {
    var h1 := AfterRecovery(h).(alarmStop := h.alarmStop);
    RecoveryDetunes(h);
    RecoveryDetunes(h1);
    DetunedTwice(h.froDetune, h.alarmStop);
  }

  lemma RecoveryDetunes(h: Hw)
    ensures AfterRecovery(h).froDetune == Detuned(h.froDetune, h.alarmStop)
  {
  }

  /** Toggling the same oscillators twice restores a de-tune mask. */
  lemma DetunedTwice(w: Word, bits: Word)
    ensures Detuned(Detuned(w, bits), bits) == w
  {
  }

  // ---------------------------------------------------------------------
  // The wait loop
  // ---------------------------------------------------------------------

  /** One poll iteration reads one STATUS sample when it sees READY and two when it does not. */
  lemma PollStepAdvances(h: Hw)
    requires PollStepOk(h)
    ensures PollStep(h).0.samples == h.samples
    ensures PollStep(h).0.polled == h.polled + if PollStep(h).1 then 1 else 2
  {
  }

  /** A poll iteration never releases a result and never changes CONTROL or CONFIG. */
  lemma PollStepKeeps(h: Hw)
    requires PollStepOk(h)
    ensures PollStep(h).0.results == h.results && PollStep(h).0.taken == h.taken
    ensures PollStep(h).0.control == h.control && PollStep(h).0.config == h.config
  {
  }

  /**
   * One poll iteration writes nothing when READY is seen or when the second
   * STATUS read shows no SHUTDOWN_OFLO; otherwise it writes exactly one
   * recovery step, built from the ALARMSTOP value latched at that read.
   */
  lemma PollStepLog(h: Hw)
    requires PollStepOk(h)
    ensures PollStep(h).0.log == h.log +
      if !IsReady(h.samples[h.polled].status) && IsShutdownOflo(h.samples[h.polled + 1].status)
      then RecoveryWrites(h.froDetune, h.samples[h.polled + 1].alarmStop)
      else []
  {
  }

  /** A poll iteration that recovers toggles exactly the oscillators in alarm in FRODETUNE. */
  lemma PollStepDetunes(h: Hw)
    requires PollStepOk(h)
    requires !IsReady(h.samples[h.polled].status) && IsShutdownOflo(h.samples[h.polled + 1].status)
    ensures PollStep(h).0.froDetune == Detuned(h.froDetune, h.samples[h.polled + 1].alarmStop)
  {
  }

  /** The wait loop stops after the iteration that sees READY and otherwise goes on. */
  lemma AfterPollUnfold(h: Hw)
    requires PollsToReady(h.samples, h.polled)
    ensures PollStepOk(h)
    ensures var r := PollStep(h);
      if r.1 then AfterPoll(h) == r.0
      else (r.0.samples == h.samples && r.0.polled == h.polled + 2 &&
            PollsToReady(h.samples, h.polled + 2) && AfterPoll(h) == AfterPoll(r.0))
  {
    PollStepAdvances(h);
  }

  /** The wait loop never releases a result and never changes CONTROL or CONFIG. */
  lemma {:induction false} AfterPollKeeps(h: Hw)
    requires PollsToReady(h.samples, h.polled)
    ensures AfterPoll(h).samples == h.samples
    ensures AfterPoll(h).results == h.results && AfterPoll(h).taken == h.taken
    ensures AfterPoll(h).control == h.control && AfterPoll(h).config == h.config
    decreases |h.samples| - h.polled
  {
    AfterPollUnfold(h);
    PollStepKeeps(h);
    if !PollStep(h).1 {
      AfterPollKeeps(PollStep(h).0);
    }
  }

  /** The wait ends right after a STATUS read that shows READY, and never runs past the STATUS trace. */
  lemma {:induction false} AfterPollEndsOnReady(h: Hw)
    requires PollsToReady(h.samples, h.polled)
    ensures AfterPoll(h).samples == h.samples && h.polled < AfterPoll(h).polled <= |h.samples|
    ensures IsReady(h.samples[AfterPoll(h).polled - 1].status)
    decreases |h.samples| - h.polled
  {
    AfterPollUnfold(h);
    PollStepAdvances(h);
    if !PollStep(h).1 {
      AfterPollEndsOnReady(PollStep(h).0);
    }
  }

  /** Complete recovery steps followed by complete recovery steps. */
  lemma {:induction false} GroupsConcat(a: seq<Write>, b: seq<Write>)
    requires RecoveryGroups(a) && RecoveryGroups(b)
    ensures RecoveryGroups(a + b)
    decreases |a|
  {
    if a != [] {
      assert |a| >= 5 && IsRecoveryStep(a[..5]) && RecoveryGroups(a[5..]);
      GroupsConcat(a[5..], b);
      var all := a + b;
      assert all[..5] == a[..5];
      assert all[5..] == a[5..] + b;
    } else {
      assert a + b == b;
    }
  }

  /** One recovery step is a complete recovery step, whatever values it was built from. */
  lemma OneGroup(tune: Word, alarm: Word)
    ensures RecoveryGroups(RecoveryWrites(tune, alarm))
  {
    var w := RecoveryWrites(tune, alarm);
    assert w[..5] == w;
    assert w[5..] == [];
  }

  /** What one poll iteration writes is a (possibly empty) run of complete recovery steps. */
  lemma PollStepGroups(h: Hw)
    requires PollStepOk(h)
    ensures h.log <= PollStep(h).0.log
    ensures RecoveryGroups(PollStep(h).0.log[|h.log|..])
  {
    PollStepLog(h);
    var step := PollStep(h).0.log[|h.log|..];
    if step != [] {
      OneGroup(h.froDetune, h.samples[h.polled + 1].alarmStop);
    }
  }

  /** The suffix of `c` after `a` is the part of `b` after `a` followed by the suffix of `c` after `b`. */
  lemma SplitSuffix(a: seq<Write>, b: seq<Write>, c: seq<Write>)
    requires a <= b && b <= c
    ensures c[|a|..] == b[|a|..] + c[|b|..]
  {
  }

  /** Everything the wait loop writes is a sequence of complete recovery steps. */
  lemma {:induction false} AfterPollLog(h: Hw)
    requires PollsToReady(h.samples, h.polled)
    ensures h.log <= AfterPoll(h).log
    ensures RecoveryGroups(AfterPoll(h).log[|h.log|..])
    decreases |h.samples| - h.polled
  {
    AfterPollUnfold(h);
    PollStepGroups(h);
    var r := PollStep(h);
    if !r.1 {
      AfterPollLog(r.0);
      SplitSuffix(h.log, r.0.log, AfterPoll(r.0).log);
      GroupsConcat(r.0.log[|h.log|..], AfterPoll(r.0).log[|r.0.log|..]);
    }
  }

  /** A device that polls with neither READY nor SHUTDOWN_OFLO set is left alone. */
  lemma IdlePollWritesNothing(h: Hw)
    requires PollStepOk(h)
    requires !IsReady(h.samples[h.polled].status) && !IsShutdownOflo(h.samples[h.polled + 1].status)
    ensures PollStep(h).0.log == h.log && !PollStep(h).1
  {
    PollStepLog(h);
  }

  /** Seeing READY at the first read ends the wait without a recovery step or any other write. */
  lemma ReadyExitsAtOnce(h: Hw)
    requires PollsToReady(h.samples, h.polled) && IsReady(h.samples[h.polled].status)
    ensures AfterPoll(h).log == h.log && AfterPoll(h).polled == h.polled + 1
  {
    AfterPollUnfold(h);
    PollStepLog(h);
    PollStepAdvances(h);
  }

  // ---------------------------------------------------------------------
  // The 128-bit read
  // ---------------------------------------------------------------------

  /** Preparing the read neither releases a result nor changes the traces. */
  lemma PreparedKeepsTraces(h: Hw)
    requires Read128Ok(h)
    ensures Prepared(h).samples == h.samples && Prepared(h).results == h.results
    ensures Prepared(h).taken == h.taken
  {
    AfterPollKeeps(if Enabled(h) then h else AfterInitSeq(h));
  }

  /** `eip76d_rng_read128` returns the result the engine presented. */
  lemma Read128Returns(h: Hw)
    requires Read128Ok(h)
    ensures Read128Result(h).1 == h.results[h.taken]
  {
    PreparedKeepsTraces(h);
  }

  /** `eip76d_rng_read128` acknowledges exactly that result, and the engine moves on to the next. */
  lemma Read128Advances(h: Hw)
    requires Read128Ok(h)
    ensures Read128Result(h).0.taken == h.taken + 1
    ensures Read128Result(h).0.results == h.results && Read128Result(h).0.samples == h.samples
  {
    PreparedKeepsTraces(h);
  }

  /** The wait loop followed by the READY acknowledgement: recovery steps, then the acknowledgement. */
  lemma PollThenAckLog(h: Hw)
    requires PollsToReady(h.samples, h.polled)
    ensures var r := AfterWrite(AfterPoll(h), Write(RngIntAck, RngReady));
      |h.log| < |r.log| &&
      r.log[..|h.log|] == h.log &&
      RecoveryGroups(r.log[|h.log|..|r.log| - 1]) &&
      r.log[|r.log| - 1] == Write(RngIntAck, RngReady)
  {
    AfterPollLog(h);
    var p := AfterPoll(h);
    var r := AfterWrite(p, Write(RngIntAck, RngReady));
    assert r.log[..|h.log|] == h.log;
    assert r.log[|h.log|..|r.log| - 1] == p.log[|h.log|..];
  }

  /**
   * The log of one 128-bit read: the init writes exactly when the device
   * was disabled on entry, then complete recovery steps only, then the READY
   * acknowledgement as the last write.
   */
  lemma Read128Log(h: Hw)
    requires Read128Ok(h)
    ensures var r := Read128Result(h).0;
      var k := |h.log| + (if Enabled(h) then 0 else 4);
      k < |r.log| &&
      r.log[..k] == h.log + (if Enabled(h) then [] else InitWrites()) &&
      RecoveryGroups(r.log[k..|r.log| - 1]) &&
      r.log[|r.log| - 1] == Write(RngIntAck, RngReady)
  {
    var h1 := if Enabled(h) then h else AfterInitSeq(h);
    assert h1.log == h.log + (if Enabled(h) then [] else InitWrites());
    PollThenAckLog(h1);
    assert Read128Result(h).0 == AfterWrite(AfterPoll(h1), Write(RngIntAck, RngReady));
  }

  /** `eip76d_rng_read128` runs the init sequence if and only if CONTROL's enable bit was clear. */
  lemma Read128InitsIffDisabled(h: Hw)
    requires Read128Ok(h)
    ensures |Read128Result(h).0.log| > |h.log|
    ensures Read128Result(h).0.log[|h.log|] == Write(RngConfig, 0x0022_0005) <==> !Enabled(h)
  {
    Read128Log(h);
    var r := Read128Result(h).0;
    var k := |h.log| + (if Enabled(h) then 0 else 4);
    if Enabled(h) {
      var mid := r.log[k..|r.log| - 1];
      if mid == [] {
        assert r.log[|h.log|] == r.log[|r.log| - 1];
      } else {
        assert r.log[|h.log|] == mid[0] == mid[..5][0];
      }
    } else {
      assert r.log[|h.log|] == r.log[..k][|h.log|];
    }
  }

  // ---------------------------------------------------------------------
  // The driver's operations on the device
  // ---------------------------------------------------------------------

  /** `eip76d_rng_is_enabled`. */
  method IsEnabled(dev: Device) returns (on: bool)
    ensures on <==> Enabled(dev.State())
  {
    var control := dev.Read32(RngControl);
    on := control & EnableTrng != 0;
  }

  /** `eip76d_rng_init_seq`. */
  method InitSeq(dev: Device)
    modifies dev
    ensures dev.State() == AfterInitSeq(old(dev.State()))
  {
    ghost var h := dev.State();
    var val: Word := 0;
    val := val | (ConfigMinRefilCycles << ConfigMinRefilCyclesShift);
    val := val | (ConfigMaxRefilCycles << ConfigMaxRefilCyclesShift);
    dev.Write32(RngConfig, val);
    dev.Write32(RngFroDetune, 0x0);
    dev.Write32(RngFroEnable, 0xffffff);
    dev.Write32(RngControl, EnableTrng);
    InitSeqIsItsChain(h);
  }

  /** The recovery step the wait loop runs when the second STATUS read shows SHUTDOWN_OFLO. */
  method Recover(dev: Device)
    modifies dev
    ensures dev.State() == AfterRecovery(old(dev.State()))
  {
    ghost var h := dev.State();
    var alarm := dev.Read32(RngAlarmStop);
    var tune := dev.Read32(RngFroDetune);
    dev.Write32(RngAlarmMask, 0x0);
    dev.Write32(RngAlarmStop, 0x0);
    dev.Write32(RngFroDetune, Detuned(tune, alarm));
    dev.Write32(RngFroEnable, RngFroMask);
    dev.Write32(RngIntAck, ShutdownOflo);
    RecoveryIsItsChain(h);
  }

  /** One poll iteration: the loop condition, and the loop body when the condition holds. */
  method PollOnce(dev: Device) returns (ready: bool)
    requires PollStepOk(dev.State())
    modifies dev
    ensures (dev.State(), ready) == PollStep(old(dev.State()))
  {
    var status := dev.ReadStatus();
    ready := status & RngReady != 0;
    if !ready {
      var status2 := dev.ReadStatus();
      if status2 & ShutdownOflo != 0 {
        Recover(dev);
      }
    }
  }

  /** The wait loop of `eip76d_rng_read128`. */
  method WaitReady(dev: Device)
    requires PollsToReady(dev.samples, dev.polled)
    modifies dev
    ensures dev.State() == AfterPoll(old(dev.State()))
  {
    ghost var waited := AfterPoll(dev.State());
    var ready := false;
    while !ready
      invariant !ready ==> PollsToReady(dev.samples, dev.polled) && AfterPoll(dev.State()) == waited
      invariant ready ==> dev.State() == waited
      decreases |dev.samples| - dev.polled
    {
      AfterPollUnfold(dev.State());
      PollStepAdvances(dev.State());
      ready := PollOnce(dev);
    }
  }

  /** `eip76d_rng_read128`; the four words are returned in the order of its out-parameters. */
  method Read128(dev: Device) returns (word0: Word, word1: Word, word2: Word, word3: Word)
    requires Read128Ok(dev.State())
    modifies dev
    ensures dev.State() == Read128Result(old(dev.State())).0
    ensures Block(word0, word1, word2, word3) == Read128Result(old(dev.State())).1
  {
    ghost var h := dev.State();
    PreparedKeepsTraces(h);
    var on := IsEnabled(dev);
    if !on {
      InitSeq(dev);
    }
    WaitReady(dev);
    assert dev.State() == Prepared(h);
    word0 := dev.Read32(RngOutput0);
    word1 := dev.Read32(RngOutput1);
    word2 := dev.Read32(RngOutput2);
    word3 := dev.Read32(RngOutput3);
    dev.Write32(RngIntAck, RngReady);
  }

  /** `eip76d_rng_init`, apart from the address mapping and the log message. */
  method Init(dev: Device) returns (res: TeeResult)
    modifies dev
    ensures dev.State() == AfterInitSeq(old(dev.State()))
    ensures Enabled(dev.State())
    ensures res == TeeSuccess
  {
    InitSeq(dev);
    res := TeeSuccess;
  }
}
