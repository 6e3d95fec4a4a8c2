/**
 * The EIP76D register block as the driver sees it through io_read32 and
 * io_write32.
 *
 * The registers the driver writes and reads back (CONTROL, CONFIG, FROENABLE,
 * FRODETUNE, ALARMMASK) hold the last value stored in them; so does
 * ALARMSTOP, except that every STATUS read latches into it the value the
 * engine has set by then. What the engine does on its own is given as two
 * traces, each with a cursor saying how much of it the driver has consumed:
 *  - `samples`: what successive reads of STATUS return; `polled` reads have
 *    been made. A sample also carries the ALARMSTOP value the engine has
 *    latched by then (it sets ALARMSTOP itself when oscillators shut down).
 *  - `results`: the 128-bit results the engine presents, oldest first; `taken`
 *    of them have been acknowledged. The four OUTPUT registers show
 *    `results[taken]`; acknowledging READY through INTACK moves on to the next.
 * INTACK shares its offset with STATUS: a write there is an acknowledgement
 * and is never read back as STATUS. Every write is appended to `log`.
 */
module Eip76dDevice {
  import opened Eip76dRegs

  /** One 128-bit result: the words of OUTPUT_0..OUTPUT_3. */
  datatype Block = Block(w0: Word, w1: Word, w2: Word, w3: Word)

  datatype Write = Write(offset: nat, value: Word)

  datatype Sample = Sample(status: Word, alarmStop: Word)

  datatype Hw = Hw(
    control: Word,
    config: Word,
    froEnable: Word,
    froDetune: Word,
    alarmMask: Word,
    alarmStop: Word,
    samples: seq<Sample>,
    polled: nat,
    results: seq<Block>,
    taken: nat,
    log: seq<Write>)

  /** The engine has a result on OUTPUT_0..3. */
  predicate HasResult(h: Hw) {
    h.taken < |h.results|
  }

  /** What io_read32 returns for any register other than STATUS. */
  function RegValue(h: Hw, off: nat): (v: Word)
    requires IsOutput(off) ==> HasResult(h)
  {
    if off == RngControl then h.control
    else if off == RngConfig then h.config
    else if off == RngFroEnable then h.froEnable
    else if off == RngFroDetune then h.froDetune
    else if off == RngAlarmMask then h.alarmMask
    else if off == RngAlarmStop then h.alarmStop
    else if off == RngOutput0 then h.results[h.taken].w0
    else if off == RngOutput1 then h.results[h.taken].w1
    else if off == RngOutput2 then h.results[h.taken].w2
    else if off == RngOutput3 then h.results[h.taken].w3
    else 0
  }

  /** The engine has a STATUS sample for the next read. */
  predicate HasSample(h: Hw) {
    h.polled < |h.samples|
  }

  /** A read of STATUS: the next sample, whose ALARMSTOP value the engine latches. */
  function StatusRead(h: Hw): (r: (Hw, Word))
    requires HasSample(h)
  {
    var s := h.samples[h.polled];
    (h.(polled := h.polled + 1, alarmStop := s.alarmStop), s.status)
  }

  /**
   * One io_write32: a stored register takes the value; acknowledging READY
   * through INTACK releases the current result; every write is logged.
   */
  function AfterWrite(h: Hw, w: Write): (r: Hw) {
    var off, v := w.offset, w.value;
    Hw(
      if off == RngControl then v else h.control,
      if off == RngConfig then v else h.config,
      if off == RngFroEnable then v else h.froEnable,
      if off == RngFroDetune then v else h.froDetune,
      if off == RngAlarmMask then v else h.alarmMask,
      if off == RngAlarmStop then v else h.alarmStop,
      h.samples,
      h.polled,
      h.results,
      if off == RngIntAck && v & RngReady != 0 then h.taken + 1 else h.taken,
      h.log + [w])
  }

  /** A list of writes issued in order. */
  function AfterWrites(h: Hw, ws: seq<Write>): (r: Hw)
    decreases |ws|
  {
    if |ws| == 0 then h else AfterWrites(AfterWrite(h, ws[0]), ws[1..])
  }

  /** A list of writes appends exactly those writes to the log and reads no STATUS sample. */
  lemma {:induction false} WritesAreLogged(h: Hw, ws: seq<Write>)
    ensures AfterWrites(h, ws).log == h.log + ws
    ensures AfterWrites(h, ws).polled == h.polled
    decreases |ws|
  {
    if ws != [] {
      var h1 := AfterWrite(h, ws[0]);
      WritesAreLogged(h1, ws[1..]);
      assert h1.log + ws[1..] == h.log + ws by {
        assert ws == [ws[0]] + ws[1..];
      }
    }
  }

  // What one write to each register the driver programs does: it stores the
  // value in that register, logs the write, and changes nothing else.

  lemma WriteControl(h: Hw, v: Word)
    ensures AfterWrite(h, Write(RngControl, v)) == h.(control := v, log := h.log + [Write(RngControl, v)])
  {
  }

  lemma WriteConfig(h: Hw, v: Word)
    ensures AfterWrite(h, Write(RngConfig, v)) == h.(config := v, log := h.log + [Write(RngConfig, v)])
  {
  }

  lemma WriteFroEnable(h: Hw, v: Word)
    ensures AfterWrite(h, Write(RngFroEnable, v)) == h.(froEnable := v, log := h.log + [Write(RngFroEnable, v)])
  {
  }

  lemma WriteFroDetune(h: Hw, v: Word)
    ensures AfterWrite(h, Write(RngFroDetune, v)) == h.(froDetune := v, log := h.log + [Write(RngFroDetune, v)])
  {
  }

  lemma WriteAlarmMask(h: Hw, v: Word)
    ensures AfterWrite(h, Write(RngAlarmMask, v)) == h.(alarmMask := v, log := h.log + [Write(RngAlarmMask, v)])
  {
  }

  lemma WriteAlarmStop(h: Hw, v: Word)
    ensures AfterWrite(h, Write(RngAlarmStop, v)) == h.(alarmStop := v, log := h.log + [Write(RngAlarmStop, v)])
  {
  }

  /** Acknowledging SHUTDOWN_OFLO only logs the write: the current result stays. */
  lemma AckOverflow(h: Hw)
    ensures AfterWrite(h, Write(RngIntAck, ShutdownOflo)) == h.(log := h.log + [Write(RngIntAck, ShutdownOflo)])
  {
  }

  /** Acknowledging READY releases the current result and logs the write. */
  lemma AckReady(h: Hw)
    ensures AfterWrite(h, Write(RngIntAck, RngReady)) ==
      h.(taken := h.taken + 1, log := h.log + [Write(RngIntAck, RngReady)])
  {
  }

  /**
   * A write to INTACK stores nothing: it is not a store to STATUS or to any
   * other register. The STATUS trace and its cursor, and the result trace,
   * are left as they were.
   */
  lemma IntAckStoresNothing(h: Hw, v: Word)
    ensures var r := AfterWrite(h, Write(RngIntAck, v));
      r.control == h.control && r.config == h.config && r.froEnable == h.froEnable &&
      r.froDetune == h.froDetune && r.alarmMask == h.alarmMask && r.alarmStop == h.alarmStop &&
      r.samples == h.samples && r.polled == h.polled && r.results == h.results
  {
  }

  /** Acknowledging READY releases the current result; acknowledging anything else keeps it. */
  lemma IntAckReleasesResult(h: Hw, v: Word)
    ensures AfterWrite(h, Write(RngIntAck, v)).taken == if v & RngReady != 0 then h.taken + 1 else h.taken
  {
  }

  /** A stored register reads back the last value written to it. */
  lemma ReadBackAfterWrite(h: Hw, off: nat, v: Word)
    requires off in {RngControl, RngConfig, RngFroEnable, RngFroDetune, RngAlarmMask, RngAlarmStop}
    ensures RegValue(AfterWrite(h, Write(off, v)), off) == v
  {
  }

  /** The register block behind the device handle `rng`; the engine's traces are fixed when it is found. */
  class Device {
    var control: Word
    var config: Word
    var froEnable: Word
    var froDetune: Word
    var alarmMask: Word
    var alarmStop: Word
    const samples: seq<Sample>
    var polled: nat
    const results: seq<Block>
    var taken: nat
    var log: seq<Write>

    function State(): (h: Hw)
      reads this
    {
      Hw(control, config, froEnable, froDetune, alarmMask, alarmStop, samples, polled, results, taken, log)
    }

    /** A device in the given state, as found by the driver. */
    constructor (h: Hw)
      ensures State() == h
    {
      control, config, froEnable, froDetune := h.control, h.config, h.froEnable, h.froDetune;
      alarmMask, alarmStop := h.alarmMask, h.alarmStop;
      samples, polled, results, taken, log := h.samples, h.polled, h.results, h.taken, h.log;
    }

    /** io_read32 of any register other than STATUS; such reads change nothing. */
    method Read32(off: nat) returns (v: Word)
      requires off != RngStatus
      requires IsOutput(off) ==> taken < |results|
      ensures v == RegValue(State(), off)
    {
      if off == RngControl {
        v := control;
      } else if off == RngConfig {
        v := config;
      } else if off == RngFroEnable {
        v := froEnable;
      } else if off == RngFroDetune {
        v := froDetune;
      } else if off == RngAlarmMask {
        v := alarmMask;
      } else if off == RngAlarmStop {
        v := alarmStop;
      } else if off == RngOutput0 {
        v := results[taken].w0;
      } else if off == RngOutput1 {
        v := results[taken].w1;
      } else if off == RngOutput2 {
        v := results[taken].w2;
      } else if off == RngOutput3 {
        v := results[taken].w3;
      } else {
        v := 0;
      }
    }

    /** A 32-bit read of STATUS: the engine's next sample, which also latches its ALARMSTOP value. */
    method ReadStatus() returns (v: Word)
      requires polled < |samples|
      modifies this
      ensures (State(), v) == StatusRead(old(State()))
    {
      v := samples[polled].status;
      alarmStop := samples[polled].alarmStop;
      polled := polled + 1;
    }

    /** A 32-bit write of `v` to the register at offset `off`. */
    method Write32(off: nat, v: Word)
      modifies this
      ensures State() == AfterWrite(old(State()), Write(off, v))
    {
      var h := AfterWrite(State(), Write(off, v));
      control, config, froEnable, froDetune, alarmMask, alarmStop, taken, log :=
        h.control, h.config, h.froEnable, h.froDetune, h.alarmMask, h.alarmStop, h.taken, h.log;
      assert State() == h;
    }
  }
}
