/** Timestamps of audio blocks: the I2S time line, its offset from central time, and the oscillator
    adjustment. The controller that proposes the adjustment is a parameter. */
module Audio {
  import opened Division
  import opened Words
  import opened RecordTiming
  import FreqEst
  import opened SyncNode
  import opened SyncCentral

  const FREQ_REG_MIN: int := 36834
  const FREQ_REG_MAX: int := 42874
  const FRAME_RATE: int := 48000
  const CHANNELS: int := 2
  const WORD_SIZE: int := 16
  const BLOCK_SIZE: int := 14400
  const FRAMES_PER_BLOCK: int := BLOCK_SIZE / CHANNELS / (WORD_SIZE / 8)

  const SAMPLE_PERIOD: u64 := TIME_NOMINAL_FREQ * TWO_32 / FRAME_RATE
  const BLOCK_TICKS: u32 := TIME_NOMINAL_FREQ * FRAMES_PER_BLOCK / FRAME_RATE
  const BLOCK_DURATION: u64 := BLOCK_TICKS * TWO_32

  /** The two checks of initialisation: blocks of whole frames, and of whole timer ticks: 75 ms. The
      sample period is rounded down. */
  lemma BlocksAreWhole()
    ensures FRAMES_PER_BLOCK * CHANNELS * WORD_SIZE == BLOCK_SIZE * 8
    ensures BLOCK_DURATION * FRAME_RATE == TIME_NOMINAL_FREQ * FRAMES_PER_BLOCK * TWO_32
    ensures BLOCK_DURATION * 1000 == 75 * 16_000_000 * 0x1_0000_0000
    ensures SAMPLE_PERIOD * 48_000 <= 16_000_000 * 0x1_0000_0000 < (SAMPLE_PERIOD + 1) * 48_000
  {
  }

  /** With the six bytes per frame that the audio thread passes to the recorder, the split arithmetic
      of a due block never wraps. With four, the size of a stereo 16-bit frame, it does: a request at
      the very end of a block would be cut at frame 21 instead of 3600. */
  lemma SplitsOfABlock(wait: u32)
    requires wait <= BLOCK_TICKS
    ensures wait * (BLOCK_SIZE / 6) + BLOCK_TICKS / 2 < TWO_32
    ensures FRAMES_PER_BLOCK == 3600 && SplitFrame(BLOCK_TICKS, FRAMES_PER_BLOCK, BLOCK_TICKS) == 21
  {
    assert BLOCK_SIZE / 6 == 2400 && BLOCK_TICKS == 1_200_000;
    assert Wrap32(BLOCK_TICKS * 3600) == 25_032_704;
  }

  datatype BlockStamp = BlockStamp(i2sTime: u64, refTime: u32)

  /** Central start time of a block, in whole ticks. */
  function BlockStart(i2sTime: u64, targetTheta: u64): u32 {
    Wrap64(i2sTime - targetTheta) / TWO_32
  }

  /** Rounds a phase to the nearest multiple of the period, in 64-bit words. */
  function RoundToPeriod(theta: u64, period: u64): u64
    requires period > 0
  {
    Wrap64(RoundDown(Wrap64(theta + period / 2), period))
  }

  /** Block start times advance by exactly the block duration mod 2^32, across the wrap of the 64-bit
      I2S time, as long as the target phase stays. */
  lemma StartTimeAdvances(i2sTime: u64, targetTheta: u64, ticks: u32)
    ensures BlockStart(Wrap64(i2sTime + ticks * TWO_32), targetTheta)
         == Wrap32(BlockStart(i2sTime, targetTheta) + ticks)
  {
    var x, step := Wrap64(i2sTime - targetTheta), ticks * TWO_32;
    WrapOfSum64(i2sTime + step, -(targetTheta as int));
    WrapOfSum64(i2sTime - targetTheta, step);
    WholeTicks(x, ticks);
    hide Wrap64, Wrap32;
  }

  lemma WholeTicks(x: u64, ticks: u32)
    ensures Wrap64(x + ticks * TWO_32) / TWO_32 == Wrap32(x / TWO_32 + ticks)
  {
  }

  lemma NextBlock(i2sTime: u64, targetTheta: u64, ticks: u32, time: int, offset: int, first: u32)
    requires BlockStart(Wrap64(i2sTime + time), targetTheta) == Wrap32(first + offset)
    ensures BlockStart(Wrap64(i2sTime + (time + ticks * TWO_32)), targetTheta) == Wrap32(first + (offset + ticks))
  {
    StartTimeAdvances(Wrap64(i2sTime + time), targetTheta, ticks);
    WrapOfSum32(first + offset, ticks);
    WrapOfSum64(i2sTime + time, ticks * TWO_32);
    hide Wrap64, Wrap32, BlockStart;
  }

  lemma {:induction false} StartTimeOfBlock(i2sTime: u64, targetTheta: u64, ticks: u32, k: nat)
    ensures BlockStart(Wrap64(i2sTime + k * (ticks * TWO_32)), targetTheta)
         == BlockTime(BlockStart(i2sTime, targetTheta), ticks, k)
  {
    if k > 0 {
      hide Wrap64, Wrap32, BlockStart;
      var step, first := ticks * TWO_32, BlockStart(i2sTime, targetTheta);
      StartTimeOfBlock(i2sTime, targetTheta, ticks, k - 1);
      NextBlock(i2sTime, targetTheta, ticks, (k - 1) * step, (k - 1) * ticks, first);
      Distribute(k - 1, 1, step);
      Distribute(k - 1, 1, ticks);
    }
  }

  /** The target phase lies on the sample grid within half a sample of the estimate, on the circle of
      64-bit phases. */
  lemma TargetIsNearest(theta: u64, period: u64)
    requires 0 < period < TWO_63
    ensures var target := RoundToPeriod(theta, period);
            && target % period == 0
            && -(period as int) <= 2 * FreqEst.PhaseDiff(target, theta) <= period
  {
    Rounded(theta, period);
    hide RoundToPeriod, FreqEst.PhaseDiff;
    NearestOnCircle(theta, period, RoundToPeriod(theta, period));
  }

  lemma Rounded(theta: u64, period: u64)
    requires 0 < period < TWO_63
    ensures var target, sum := RoundToPeriod(theta, period), theta + period / 2;
            && target % period == 0
            && if sum < TWO_64 then target <= sum < target + period else target == 0
  {
    hide RoundDown, Wrap64;
    var sum := theta + period / 2;
    var y := Wrap64(sum);
    var down := RoundDown(y, period);
    WrapCases(sum);
    WrapCases(down);
    if sum >= TWO_64 {
      BelowOnePeriod(y, period);
    }
    assert RoundToPeriod(theta, period) == down;
    hide RoundToPeriod;
  }

  lemma WrapCases(x: nat)
    requires x < 2 * TWO_64
    ensures Wrap64(x) == if x < TWO_64 then x else x - TWO_64
  {
  }

  lemma BelowOnePeriod(y: nat, period: nat)
    requires y < period
    ensures RoundDown(y, period) == 0
  {
    QuotientUnique(y, period, 0);
  }

  lemma NearestOnCircle(theta: u64, period: u64, target: u64)
    requires 0 < period < TWO_63
    requires if theta + period / 2 < TWO_64 then target <= theta + period / 2 < target + period else target == 0
    ensures -(period as int) <= 2 * FreqEst.PhaseDiff(target, theta) <= period
  {
    if theta + period / 2 < TWO_64 {
      SignedDifference64(target, theta);
    } else {
      SignedDifference64(TWO_64, theta);
    }
  }

  /** A stamp is the whole-tick part of a time that is as far from the reference time as the target phase
      is from the measured one. */
  lemma StampIsCentral(local: u64, ref: u64, target: u64)
    ensures var x := Wrap64(local - target);
            && BlockStart(local, target) == x / TWO_32
            && FreqEst.PhaseDiff(ref, x) == FreqEst.PhaseDiff(target, Wrap64(local - ref))
  {
    WrapSubtrahend(ref, local - target);
    WrapSubtrahend(target, local - ref);
    hide Wrap64;
  }

  lemma WrapSubtrahend(x: u64, y: int)
    ensures Wrap64(x - Wrap64(y)) == Wrap64(x - y)
  {
  }

  /** The whole-tick part of a time within half a period of the reference time. */
  ghost predicate NearCentral(stamp: u32, ref: u64, period: u64) {
    exists x: u64 :: stamp == x / TWO_32 && -(period as int) <= 2 * FreqEst.PhaseDiff(ref, x) <= period
  }

  /** Rounding a phase just measured to the sample grid keeps the stamp that near to central time. */
  lemma FirstStampIsCentral(local: u64, ref: u64, period: u64)
    requires 0 < period < TWO_63
    ensures NearCentral(BlockStart(local, RoundToPeriod(Wrap64(local - ref), period)), ref, period)
  {
    hide RoundToPeriod, BlockStart, FreqEst.PhaseDiff, Wrap64;
    var target := RoundToPeriod(Wrap64(local - ref), period);
    TargetIsNearest(Wrap64(local - ref), period);
    StampIsCentral(local, ref, target);
    var x := Wrap64(local - target);
    assert BlockStart(local, target) == x / TWO_32 && -(period as int) <= 2 * FreqEst.PhaseDiff(ref, x) <= period;
  }

  class AudioData {
    const freqEst: FreqEst.FreqEst
    var i2sTime: u64
    var targetTheta: u64
    var hfclkaudioIncrement: int

    ghost predicate Valid()
      reads this, freqEst
    {
      freqEst.Valid() && -TWO_15 <= hfclkaudioIncrement < TWO_15
    }

    constructor (cfg: FreqEst.Config)
      requires cfg.Sane()
      ensures Valid() && fresh(freqEst) && i2sTime == 0
    {
      freqEst := new FreqEst.FreqEst(cfg);
      i2sTime, targetTheta, hfclkaudioIncrement := 0, 0, 0;
    }

    /** The interrupt at the start of each block. */
    method EguHandler(captured: u32) returns (stamp: BlockStamp)
      modifies `i2sTime
      ensures stamp == BlockStamp(old(i2sTime), captured)
      ensures i2sTime == Wrap64(old(i2sTime) + BLOCK_DURATION)
    {
      stamp := BlockStamp(i2sTime, captured);
      i2sTime := Wrap64(i2sTime + BLOCK_DURATION);
    }

    /** Keeps the register within its limits, whatever it was. The limits on the increment are 16-bit
        words, exact unless the register was far below. */
    method Clamp(proposed: int, freq: u16) returns (increment: int, newFreq: u16)
      requires -TWO_15 <= proposed < TWO_15
      ensures -TWO_15 <= increment < TWO_15 && newFreq == Wrap16(freq + increment)
      ensures FREQ_REG_MIN <= newFreq <= FREQ_REG_MAX
      ensures freq >= FREQ_REG_MAX - TWO_15 + 1 ==>
                newFreq == if freq + proposed > FREQ_REG_MAX then FREQ_REG_MAX
                           else if freq + proposed < FREQ_REG_MIN then FREQ_REG_MIN else freq + proposed
    {
      increment := proposed;
      var maxInc := Signed16(Wrap16(FREQ_REG_MAX - freq));
      var minInc := Signed16(Wrap16(FREQ_REG_MIN - freq));
      if increment > maxInc {
        increment := maxInc;
      } else if increment < minInc {
        increment := minInc;
      }
      newFreq := Wrap16(freq + increment);
    }

    /** Times a block and adjusts the oscillator. `proposed` is the controller's answer and `freq` the
        current frequency register. */
    method SyncUpdate(stamp: BlockStamp, timer: SyncTimer, proposed: int, freq: u16)
        returns (blockStart: u32, newFreq: u16)
      requires Valid() && timer.Valid() && timer.freqEst != freqEst
      requires -TWO_15 <= proposed < TWO_15
      modifies `targetTheta, `hfclkaudioIncrement, freqEst
      ensures Valid()
      ensures freqEst.State() == FreqEst.Step(freqEst.tuning, old(freqEst.State()), stamp.i2sTime,
                FreqEst.ToCentral(timer.freqEst.State(), FromInt(stamp.refTime)), old(hfclkaudioIncrement)).0
      ensures targetTheta == if old(freqEst.status).Reset?
                             then RoundToPeriod(freqEst.theta, SAMPLE_PERIOD) else old(targetTheta)
      ensures blockStart == BlockStart(stamp.i2sTime, targetTheta)
      ensures old(freqEst.status).Reset? ==>
                NearCentral(blockStart, FreqEst.ToCentral(timer.freqEst.State(), FromInt(stamp.refTime)), SAMPLE_PERIOD)
      ensures FREQ_REG_MIN <= newFreq <= FREQ_REG_MAX && newFreq == Wrap16(freq + hfclkaudioIncrement)
      ensures freq >= FREQ_REG_MAX - TWO_15 + 1 ==>
                newFreq == if freq + proposed > FREQ_REG_MAX then FREQ_REG_MAX
                           else if freq + proposed < FREQ_REG_MIN then FREQ_REG_MIN else freq + proposed
    {
      var _, refTime := timer.LocalToCentral(FromInt(stamp.refTime));
      FreqEst.InitIffReset(freqEst.tuning, freqEst.State(), stamp.i2sTime, refTime, hfclkaudioIncrement);
      FirstStampIsCentral(stamp.i2sTime, refTime, SAMPLE_PERIOD);
      hide FreqEst.Step, FreqEst.Scaled, FreqEst.ToCentral, RoundToPeriod, BlockStart, Wrap16, Wrap64, NearCentral;
      var result := freqEst.Update(stamp.i2sTime, refTime, hfclkaudioIncrement);
      if result == FreqEst.Init {
        targetTheta := RoundToPeriod(freqEst.theta, SAMPLE_PERIOD);
      }
      blockStart := BlockStart(stamp.i2sTime, targetTheta);

      hfclkaudioIncrement, newFreq := Clamp(proposed, freq);
    }
  }
}
