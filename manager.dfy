/**
 * WindManager: the per-frame state machine. Its two vector buffers are
 * arrays rewritten in place, and its timers are fields updated step by step;
 * each method is proved to produce exactly the state the value-level
 * definitions in WindHistory and WindDirection describe.
 */
module Windy {
  import opened WindVector
  import opened WindHistory
  import opened WindDirection

  class WindManager {
    // Configuration, fixed before the first frame.
    const bufferDecaySeconds: real
    const windDirectionEvaluateSecondsMinimum: real
    const windDirectionEvaluateSecondsMaximum: real
    const windDirectionRotateSecondsMinimum: real
    const windDirectionRotateSecondsMaximum: real

    // The published (interpolated) buffer and the shifted target buffer.
    const bufferCurrent: array<Vec4>
    const bufferTarget: array<Vec4>
    var bufferDecayTimer: real

    var windDirectionEvaluateSeconds: real
    var windDirectionEvaluateTimer: real
    var windDirectionRotationStart: Orientation
    var windDirectionRotationTarget: Orientation
    var windDirectionRotateSeconds: real
    var windDirectionRotateTimer: real

    /** Both buffers have the fixed length and are distinct arrays. */
    ghost predicate Valid()
      reads this
    {
      bufferCurrent.Length == BufferLength && bufferTarget.Length == BufferLength &&
      bufferCurrent != bufferTarget
    }

    /** The configured duration bounds. */
    function Settings(): (c: Config)
    {
      Config(windDirectionEvaluateSecondsMinimum, windDirectionEvaluateSecondsMaximum,
             windDirectionRotateSecondsMinimum, windDirectionRotateSecondsMaximum)
    }

    /** The buffer part of the state, as a value. */
    ghost function Buffers(): (h: History)
      reads this, bufferTarget, bufferCurrent
    {
      History(bufferTarget[..], bufferCurrent[..], bufferDecayTimer)
    }

    /** The direction part of the state, as a value. */
    ghost function Direction(): (s: DirectionState)
      reads this
    {
      DirectionState(windDirectionRotationStart, windDirectionRotationTarget,
                     windDirectionEvaluateSeconds, windDirectionEvaluateTimer,
                     windDirectionRotateSeconds, windDirectionRotateTimer)
    }

    /** Field initialisers and Awake: zeroed buffers and timers, identity rotations. */
    constructor (decaySeconds: real, evaluateMinimum: real, evaluateMaximum: real,
                 rotateMinimum: real, rotateMaximum: real)
      ensures Valid() && fresh(bufferCurrent) && fresh(bufferTarget)
      ensures bufferDecaySeconds == decaySeconds
      ensures Settings() == Config(evaluateMinimum, evaluateMaximum, rotateMinimum, rotateMaximum)
      ensures Buffers() == History(seq(BufferLength, _ => Zero), seq(BufferLength, _ => Zero), 0.0)
      ensures Direction() == Initial
    {
      bufferDecaySeconds := decaySeconds;
      windDirectionEvaluateSecondsMinimum := evaluateMinimum;
      windDirectionEvaluateSecondsMaximum := evaluateMaximum;
      windDirectionRotateSecondsMinimum := rotateMinimum;
      windDirectionRotateSecondsMaximum := rotateMaximum;
      bufferCurrent := new Vec4[BufferLength](_ => Zero);
      bufferTarget := new Vec4[BufferLength](_ => Zero);
      bufferDecayTimer := 0.0;
      windDirectionEvaluateSeconds := 0.0;
      windDirectionEvaluateTimer := 0.0;
      windDirectionRotateSeconds := 0.0;
      windDirectionRotateTimer := 0.0;
      windDirectionRotationStart := Identity;
      windDirectionRotationTarget := Identity;
    }

    /** UpdateTimer: advance a timer by one frame and report whether it reached its duration. */
    static method UpdateTimer(deltaTime: real, timer: real, seconds: real) returns (advanced: real, expired: bool)
      ensures advanced - timer == deltaTime
      ensures expired <==> advanced >= seconds
    {
      advanced := timer + deltaTime;
      expired := advanced >= seconds;
    }

    /**
     * UpdateWindDirection for one frame. `draws` stands for the three
     * Random.value results a re-evaluation consumes; the result is the
     * rotation written to the wind zone.
     */
    method UpdateWindDirection(deltaTime: real, draws: Draws) returns (rotation: Orientation)
      modifies this`windDirectionEvaluateSeconds, this`windDirectionEvaluateTimer,
               this`windDirectionRotationStart, this`windDirectionRotationTarget,
               this`windDirectionRotateSeconds, this`windDirectionRotateTimer
      ensures Direction() == DirectionTick(Settings(), old(Direction()), deltaTime, draws)
      ensures rotation == Heading(Direction())
      ensures Expires(old(Direction()), deltaTime) ==>
                windDirectionRotationStart == old(windDirectionRotationTarget) &&
                windDirectionEvaluateTimer == old(windDirectionEvaluateTimer) + deltaTime - old(windDirectionEvaluateSeconds)
      ensures old(windDirectionRotateTimer) >= old(windDirectionRotateSeconds) && !Expires(old(Direction()), deltaTime) ==>
                windDirectionRotateTimer == old(windDirectionRotateTimer) && rotation == windDirectionRotationTarget
    {
      var evaluateTimerExpired;
      windDirectionEvaluateTimer, evaluateTimerExpired :=
        UpdateTimer(deltaTime, windDirectionEvaluateTimer, windDirectionEvaluateSeconds);

      // Pick a new rotation once the evaluate timer runs out.
      if evaluateTimerExpired {
        windDirectionRotationStart := windDirectionRotationTarget;
        windDirectionRotationTarget := PickTarget(draws.angle);

        windDirectionRotateTimer := windDirectionRotateTimer - windDirectionRotateSeconds;
        windDirectionRotateSeconds :=
          StartTimer(windDirectionRotateSecondsMinimum, windDirectionRotateSecondsMaximum, draws.rotate);

        windDirectionEvaluateTimer := windDirectionEvaluateTimer - windDirectionEvaluateSeconds;
        windDirectionEvaluateSeconds :=
          StartTimer(windDirectionEvaluateSecondsMinimum, windDirectionEvaluateSecondsMaximum, draws.evaluate);
        windDirectionEvaluateSeconds := windDirectionEvaluateSeconds + windDirectionRotateSeconds;
      }

      // The rotate timer stops once it has reached its duration.
      var rotationTimerExpired := windDirectionRotateTimer >= windDirectionRotateSeconds;
      if !rotationTimerExpired {
        windDirectionRotateTimer, rotationTimerExpired :=
          UpdateTimer(deltaTime, windDirectionRotateTimer, windDirectionRotateSeconds);
      }

      if rotationTimerExpired {
        rotation := windDirectionRotationTarget;
      } else {
        rotation := Slerp(windDirectionRotationStart, windDirectionRotationTarget,
                          windDirectionRotateTimer, windDirectionRotateSeconds);
      }
    }

    /**
     * UpdateBufferArrays for one frame, given this frame's wind vector: decay,
     * write the live slot, shift the target slots in place, rebuild the
     * current slots. The current array is what is published to shaders.
     */
    method UpdateBufferArrays(deltaTime: real, windVector: Vec4)
      requires Valid()
      modifies this`bufferDecayTimer, bufferTarget, bufferCurrent
      ensures Valid()
      ensures Buffers() == BufferTick(bufferDecaySeconds, old(Buffers()), deltaTime, windVector)
      ensures bufferCurrent[BufferLength - 1] == windVector && bufferTarget[BufferLength - 1] == windVector
      ensures var k := DecayStep(bufferDecaySeconds, old(bufferDecayTimer), deltaTime).count;
              forall i | 0 <= i < BufferLength - 1 ::
                bufferTarget[i] == if k <= 0 then old(bufferTarget[i])
                                   else if i + k < BufferLength - 1 then old(bufferTarget[i + k])
                                   else windVector
    {
      ghost var before := Buffers();
      var decayCount := AdvanceDecay(deltaTime);

      // Index N-1: the live wind, exact in both arrays.
      bufferTarget[BufferLength - 1] := windVector;
      bufferCurrent[BufferLength - 1] := windVector;
      assert bufferTarget[..] == before.target[BufferLength - 1 := windVector];

      // Index [0, N-1): shift, then rebuild.
      ShiftTargets(decayCount);
      RebuildCurrent();
    }

    /** The decay step: advance the timer, count whole periods, carry the remainder, cap the count. */
    method AdvanceDecay(deltaTime: real) returns (decayCount: int)
      modifies this`bufferDecayTimer
      ensures decayCount == DecayStep(bufferDecaySeconds, old(bufferDecayTimer), deltaTime).count
      ensures bufferDecayTimer == DecayStep(bufferDecaySeconds, old(bufferDecayTimer), deltaTime).timer
    {
      if bufferDecaySeconds > 0.0 {
        bufferDecayTimer := bufferDecayTimer + deltaTime;
        decayCount := (bufferDecayTimer / bufferDecaySeconds).Floor;
        bufferDecayTimer := bufferDecayTimer - decayCount as real * bufferDecaySeconds;
        decayCount := if BufferLength - 1 < decayCount then BufferLength - 1 else decayCount;
      } else {
        decayCount := BufferLength - 1;
      }
    }

    /**
     * The in-place left shift of the history slots. It runs upward and each
     * slot reads a slot above it, which the loop has not yet overwritten, so
     * the result is the shift of the buffer as it was before the loop.
     */
    method ShiftTargets(decayCount: int)
      requires Valid()
      modifies bufferTarget
      ensures bufferTarget[..] == Shifted(old(bufferTarget[..]), decayCount)
    {
      if decayCount > 0 {
        for bufferIndex := 0 to BufferLength - 1
          invariant forall j | 0 <= j < bufferIndex ::
                      bufferTarget[j] == if j + decayCount < BufferLength then old(bufferTarget[j + decayCount])
                                         else old(bufferTarget[BufferLength - 1])
          invariant forall j | bufferIndex <= j < BufferLength :: bufferTarget[j] == old(bufferTarget[j])
        {
          bufferTarget[bufferIndex] :=
            if bufferIndex + decayCount < BufferLength then bufferTarget[bufferIndex + decayCount]
            else bufferTarget[BufferLength - 1];
        }
      }
    }

    /**
     * Rebuild the history slots of the published buffer from the target
     * slots: interpolated toward the next slot by the decay fraction when
     * decaying, copied otherwise. The live slot is left as it is.
     */
    method RebuildCurrent()
      requires Valid() && bufferCurrent[BufferLength - 1] == bufferTarget[BufferLength - 1]
      modifies bufferCurrent
      ensures bufferCurrent[..] ==
                if bufferDecaySeconds > 0.0 then Interpolated(bufferTarget[..], bufferDecayTimer / bufferDecaySeconds)
                else bufferTarget[..]
    {
      if bufferDecaySeconds > 0.0 {
        for bufferIndex := 0 to BufferLength - 1
          invariant forall j | 0 <= j < bufferIndex ::
                      bufferCurrent[j] == Lerp(bufferTarget[j], bufferTarget[j + 1], bufferDecayTimer / bufferDecaySeconds)
          invariant bufferCurrent[BufferLength - 1] == bufferTarget[BufferLength - 1]
        {
          bufferCurrent[bufferIndex] :=
            Lerp(bufferTarget[bufferIndex], bufferTarget[bufferIndex + 1], bufferDecayTimer / bufferDecaySeconds);
        }
      } else {
        for bufferIndex := 0 to BufferLength - 1
          invariant forall j | 0 <= j < bufferIndex :: bufferCurrent[j] == bufferTarget[j]
          invariant bufferCurrent[BufferLength - 1] == bufferTarget[BufferLength - 1]
        {
          bufferCurrent[bufferIndex] := bufferTarget[bufferIndex];
        }
      }
    }

    /**
     * Update: one frame, direction first, then the buffers. The wind vector
     * the engine derives from the rotated wind zone is passed in.
     */
    method Update(deltaTime: real, draws: Draws, windVector: Vec4) returns (rotation: Orientation)
      requires Valid()
      modifies this, bufferTarget, bufferCurrent
      ensures Valid()
      ensures Direction() == DirectionTick(Settings(), old(Direction()), deltaTime, draws)
      ensures rotation == Heading(Direction())
      ensures Buffers() == BufferTick(bufferDecaySeconds, old(Buffers()), deltaTime, windVector)
    {
      rotation := UpdateWindDirection(deltaTime, draws);
      UpdateBufferArrays(deltaTime, windVector);
    }
  }
}
