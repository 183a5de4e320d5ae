/**
 * The wind-history buffer of WindManager, as values: the decay bookkeeping,
 * the left shift of the target slots, the interpolated current slots, and
 * one whole buffer tick. The class in manager.dfy updates its arrays in
 * place and is proved to produce exactly these values.
 */
module WindHistory {
  import opened WindVector
  import opened RealArith

  /** WindManager.cBufferLength: slots 0 .. N-2 are history, slot N-1 is the live wind. */
  const BufferLength: int := 8

  /** Outcome of advancing the decay timer: slots to shift, and the carried timer. */
  datatype Decay = Decay(count: int, timer: real)

  /** Whole periods in `x` never exceed it, and what is left over is less than one period. */
  lemma FloorDivision(x: real, period: real)
    requires period > 0.0
    ensures (x / period).Floor as real * period <= x
    ensures x < (x / period).Floor as real * period + period
  {
    var q := x / period;
    var f := q.Floor as real;
    assert q * period == x;
    assert f <= q < f + 1.0;
    ScaleLe(f, q, period);
    ScaleLt(q, f + 1.0, period);
    assert (f + 1.0) * period == f * period + period;
    assert x < f * period + period;
  }

  /** Whole periods of a non-negative elapsed time are never negative. */
  lemma FloorNonNegative(x: real, period: real)
    requires period > 0.0
    ensures x >= 0.0 ==> (x / period).Floor >= 0
  {
  }

  /**
   * The decay step of UpdateBufferArrays: with a positive period, the timer
   * advances by deltaTime, every whole period in it is removed (the remainder
   * is carried, not reset), and the shift count is the number of whole periods,
   * capped at N-1. Without a positive period every slot collapses at once and
   * the timer is left alone.
   */
  function DecayStep(decaySeconds: real, timer: real, deltaTime: real): (d: Decay)
    ensures decaySeconds <= 0.0 ==> d.count == BufferLength - 1 && d.timer == timer
    ensures decaySeconds > 0.0 ==> 0.0 <= d.timer < decaySeconds && d.count <= BufferLength - 1
    ensures decaySeconds > 0.0 && timer + deltaTime >= 0.0 ==> 0 <= d.count
  {
    if decaySeconds > 0.0 then
      var elapsed := timer + deltaTime;
      var whole := (elapsed / decaySeconds).Floor;
      FloorDivision(elapsed, decaySeconds);
      FloorNonNegative(elapsed, decaySeconds);
      Decay(if BufferLength - 1 < whole then BufferLength - 1 else whole,
            elapsed - whole as real * decaySeconds)
    else
      Decay(BufferLength - 1, timer)
  }

  /**
   * The decay step loses no elapsed time unless the shift count was capped:
   * carried timer plus shifted periods is exactly the time on the clock, and
   * when capped it is at most that.
   */
  lemma DecayConservesTime(decaySeconds: real, timer: real, deltaTime: real)
    requires decaySeconds > 0.0
    ensures var d := DecayStep(decaySeconds, timer, deltaTime);
            (d.count < BufferLength - 1 ==> d.timer + d.count as real * decaySeconds == timer + deltaTime) &&
            (d.count == BufferLength - 1 ==> d.timer + d.count as real * decaySeconds <= timer + deltaTime)
  {
  }

  /**
   * The target slots after shifting left by `k`: slot i takes slot i+k, and a
   * read past the end takes the last (live) slot. A count of zero or less
   * leaves the slots alone.
   */
  function Shifted(t: seq<Vec4>, k: int): (r: seq<Vec4>)
    requires |t| >= 1
    ensures |r| == |t| && r[|t| - 1] == t[|t| - 1]
    ensures k <= 0 ==> r == t
    ensures k >= |t| - 1 ==> forall i | 0 <= i < |r| :: r[i] == t[|t| - 1]
  {
    if k <= 0 then t
    else seq(|t|, i requires 0 <= i < |t| => if i + k < |t| then t[i + k] else t[|t| - 1])
  }

  /**
   * The current slots rebuilt from the target slots: each history slot is the
   * interpolation from its own target toward the next one by `fraction`; the
   * live slot is copied.
   */
  function Interpolated(t: seq<Vec4>, fraction: real): (c: seq<Vec4>)
    requires |t| >= 1
    ensures |c| == |t| && c[|t| - 1] == t[|t| - 1]
    ensures fraction <= 0.0 ==> c == t
    ensures fraction >= 1.0 ==> forall i | 0 <= i < |t| - 1 :: c[i] == t[i + 1]
  {
    seq(|t|, i requires 0 <= i < |t| => if i < |t| - 1 then Lerp(t[i], t[i + 1], fraction) else t[i])
  }

  /** The buffer state WindManager keeps between frames. */
  datatype History = History(target: seq<Vec4>, current: seq<Vec4>, decayTimer: real)

  /** Both arrays at their fixed length. */
  predicate WellFormed(h: History)
  {
    |h.target| == BufferLength && |h.current| == BufferLength
  }

  /**
   * One call of UpdateBufferArrays on values: decay, write the live slot,
   * shift the history, rebuild the current slots (interpolated with a positive
   * period, copied otherwise).
   */
  function BufferTick(decaySeconds: real, h: History, deltaTime: real, wind: Vec4): (r: History)
    requires |h.target| == BufferLength
    ensures WellFormed(r)
    // The live slot is exact in both arrays.
    ensures r.target[BufferLength - 1] == wind && r.current[BufferLength - 1] == wind
    // The history slots read from the pre-shift slots (with the live slot already written).
    ensures var k := DecayStep(decaySeconds, h.decayTimer, deltaTime).count;
            forall i | 0 <= i < BufferLength - 1 ::
              r.target[i] == if k <= 0 then h.target[i]
                             else if i + k < BufferLength - 1 then h.target[i + k]
                             else wind
    // Instant path: every slot collapses to the live wind and nothing is interpolated.
    ensures decaySeconds <= 0.0 ==>
              r.current == r.target && r.decayTimer == h.decayTimer &&
              forall i | 0 <= i < BufferLength :: r.target[i] == wind
    // Decaying path: the carried timer is below one period, and each history
    // slot is the interpolation toward its newer neighbour.
    ensures decaySeconds > 0.0 ==> 0.0 <= r.decayTimer < decaySeconds
    ensures decaySeconds > 0.0 ==>
              forall i | 0 <= i < BufferLength - 1 ::
                r.current[i] == Lerp(r.target[i], r.target[i + 1], r.decayTimer / decaySeconds)
    ensures decaySeconds > 0.0 && r.decayTimer == 0.0 ==> r.current == r.target
  {
    var d := DecayStep(decaySeconds, h.decayTimer, deltaTime);
    var written := h.target[BufferLength - 1 := wind];
    var target := Shifted(written, d.count);
    assert forall i | 0 <= i < BufferLength - 1 ::
             target[i] == if d.count <= 0 then h.target[i]
                          else if i + d.count < BufferLength - 1 then h.target[i + d.count]
                          else wind;
    var current := if decaySeconds > 0.0 then Interpolated(target, d.timer / decaySeconds) else target;
    assert decaySeconds > 0.0 && d.timer == 0.0 ==> current == target;
    History(target, current, d.timer)
  }

  /**
   * A zero-length frame repeating the previous frame's wind leaves the buffer
   * exactly as that frame left it: nothing shifts, the timer keeps its value,
   * and the rebuilt current slots are the ones already there. (The live slot
   * is always rewritten, so a different wind does change the buffer.)
   */
  lemma ZeroFrameSameWindIsFixedPoint(decaySeconds: real, h: History, deltaTime: real, wind: Vec4)
    requires |h.target| == BufferLength
    ensures var once := BufferTick(decaySeconds, h, deltaTime, wind);
            BufferTick(decaySeconds, once, 0.0, wind) == once
  {
    var once := BufferTick(decaySeconds, h, deltaTime, wind);
    var again := BufferTick(decaySeconds, once, 0.0, wind);
    if decaySeconds > 0.0 {
      WithinOnePeriod(decaySeconds, once.decayTimer, 0.0);
      assert once.target[BufferLength - 1 := wind] == once.target;
      assert again.target == once.target;
    } else {
      assert again.target == once.target;
    }
  }

  /** `ticks` frames of the same length and the same wind, the last one applied last. */
  function RunSteady(decaySeconds: real, h: History, deltaTime: real, wind: Vec4, ticks: nat): (r: History)
    requires |h.target| == BufferLength
    ensures |r.target| == BufferLength
    ensures ticks > 0 ==> WellFormed(r) && r.target[BufferLength - 1] == wind && r.current[BufferLength - 1] == wind
    decreases ticks
  {
    if ticks == 0 then h
    else BufferTick(decaySeconds, RunSteady(decaySeconds, h, deltaTime, wind, ticks - 1), deltaTime, wind)
  }

  /**
   * A frame that leaves the decay timer short of one period shifts nothing
   * and carries all of its time; one that completes exactly one period shifts
   * one slot and carries the rest.
   */
  lemma WithinOnePeriod(decaySeconds: real, timer: real, deltaTime: real)
    requires decaySeconds > 0.0 && 0.0 <= timer + deltaTime < decaySeconds + decaySeconds
    ensures var d := DecayStep(decaySeconds, timer, deltaTime);
            (timer + deltaTime < decaySeconds ==> d.count == 0 && d.timer == timer + deltaTime) &&
            (decaySeconds <= timer + deltaTime ==> d.count == 1 && d.timer == timer + deltaTime - decaySeconds)
  {
    var d := DecayStep(decaySeconds, timer, deltaTime);
    DecayConservesTime(decaySeconds, timer, deltaTime);
    FewerThanTwoPeriods(d.count, decaySeconds, d.timer, timer + deltaTime);
  }

  /** A non-negative remainder plus `count` periods that fit in under two periods means at most one period. */
  lemma FewerThanTwoPeriods(count: int, period: real, remainder: real, elapsed: real)
    requires period > 0.0 && 0.0 <= remainder
    requires remainder + count as real * period <= elapsed < period + period
    ensures count < 2
  {
    if count >= 2 {
      ScaleLe(2.0, count as real, period);
    }
  }

  /** The decay timer after `ticks` frames of `deltaTime` each, with nothing removed. */
  function Elapsed(start: real, deltaTime: real, ticks: nat): (t: real)
    ensures deltaTime >= 0.0 ==> start <= t
    decreases ticks
  {
    if ticks == 0 then start else Elapsed(start, deltaTime, ticks - 1) + deltaTime
  }

  /** Elapsed time is the start plus ticks times the frame length. */
  lemma {:induction false} ElapsedIsProduct(start: real, deltaTime: real, ticks: nat)
    ensures Elapsed(start, deltaTime, ticks) == start + ticks as real * deltaTime
    decreases ticks
  {
    if ticks > 0 {
      ElapsedIsProduct(start, deltaTime, ticks - 1);
      assert (ticks - 1) as real * deltaTime + deltaTime == ticks as real * deltaTime;
    }
  }

  /**
   * While the accumulated time stays below one decay period, no history slot
   * moves: only the live slot is rewritten, and the timer holds exactly the
   * elapsed time.
   */
  lemma {:induction false} NoShiftWithinPeriod(decaySeconds: real, h: History, deltaTime: real, wind: Vec4, ticks: nat)
    requires |h.target| == BufferLength
    requires decaySeconds > 0.0 && 0.0 <= h.decayTimer && 0.0 <= deltaTime
    requires Elapsed(h.decayTimer, deltaTime, ticks) < decaySeconds
    ensures var r := RunSteady(decaySeconds, h, deltaTime, wind, ticks);
            r.decayTimer == Elapsed(h.decayTimer, deltaTime, ticks) &&
            forall i | 0 <= i < BufferLength - 1 :: r.target[i] == h.target[i]
    decreases ticks
  {
    if ticks > 0 {
      NoShiftWithinPeriod(decaySeconds, h, deltaTime, wind, ticks - 1);
      var prev := RunSteady(decaySeconds, h, deltaTime, wind, ticks - 1);
      WithinOnePeriod(decaySeconds, prev.decayTimer, deltaTime);
    }
  }

  /**
   * Frames that together last exactly one decay period, starting from an
   * empty timer, shift the history by exactly one slot and leave no remainder,
   * so the current slots equal the target slots (ten frames of 0.1 s against
   * a 1 s period are one instance).
   */
  lemma {:induction false} OnePeriodShiftsOnce(decaySeconds: real, h: History, deltaTime: real, wind: Vec4, ticks: nat)
    requires |h.target| == BufferLength && h.decayTimer == 0.0
    requires ticks > 0 && deltaTime > 0.0 && Elapsed(0.0, deltaTime, ticks) == decaySeconds
    ensures var r := RunSteady(decaySeconds, h, deltaTime, wind, ticks);
            r.decayTimer == 0.0 && r.current == r.target &&
            (forall i | 0 <= i < BufferLength - 2 :: r.target[i] == h.target[i + 1]) &&
            r.target[BufferLength - 2] == wind && r.target[BufferLength - 1] == wind
  {
    NoShiftWithinPeriod(decaySeconds, h, deltaTime, wind, ticks - 1);
    var before := RunSteady(decaySeconds, h, deltaTime, wind, ticks - 1);
    WithinOnePeriod(decaySeconds, before.decayTimer, deltaTime);
  }

  /** The ten-frame instance: 10 frames of 0.1 s against a 1 s period. */
  lemma TenTenthsShiftOnce(h: History, wind: Vec4)
    requires |h.target| == BufferLength && h.decayTimer == 0.0
    ensures var r := RunSteady(1.0, h, 0.1, wind, 10);
            r.decayTimer == 0.0 && r.current == r.target &&
            forall i | 0 <= i < BufferLength - 2 :: r.target[i] == h.target[i + 1]
  {
    ElapsedIsProduct(0.0, 0.1, 10);
    OnePeriodShiftsOnce(1.0, h, 0.1, wind, 10);
  }
}
