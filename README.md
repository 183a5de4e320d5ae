# Windy wind manager, modelled in Dafny

This project models `WindManager`, the per-frame driver of a 2D wind effect. Each frame it does two things:

- **Wind direction.** An *evaluate* timer decides when to pick a new random target rotation. A *rotate* timer blends from the previous target to the new one, and the result is written to the scene's wind zone.
- **Wind history.** An eight-slot history of wind vectors is kept and decayed. `target` holds the discretely shifted samples. `current` holds the samples interpolated between neighbouring `target` slots, and it is what gets published to shaders. Slot N-1 is always the live wind of this frame.

Layout, one module per file:

- `arith.dfy` (`RealArith`): small facts about products of reals, used by the proofs.
- `vector.dfy` (`WindVector`): `Vec4` and the engine's clamped `Lerp`.
- `history.dfy` (`WindHistory`): the buffer update as values:
  - the decay step, the left shift and the interpolation;
  - one whole buffer tick;
  - lemmas over runs of frames.
- `direction.dfy` (`WindDirection`): the direction timers as values:
  - orientations are symbolic: Euler angles, or a `Slerp` term that records start, target, elapsed time and duration;
  - `StartTimer`, one direction tick, and a lemma over runs of frames.
- `manager.dfy` (`Windy`): class `WindManager`:
  - the two buffers are `array<Vec4>` fields rewritten in place by the source's loops, and the timers and rotations are fields;
  - every method is proved to leave exactly the state the value-level tick functions give, applied to the old state.

Times and vector components are exact `real`s.

## Model

| member | source | states |
|---|---|---|
| `WindVector.Lerp` | Assets/Scripts/WindManager.cs:182-185 | Vector4.Lerp with the parameter clamped to [0,1]. A parameter of 0 or less gives the start and 1 or more gives the end. Equal endpoints give that vector. Every component lies between the endpoints' components. |
| `WindHistory.FloorDivision` | Assets/Scripts/WindManager.cs:134-135 | Supporting lemma. The whole periods removed from the decay timer never exceed it, and what is left is less than one period. |
| `WindHistory.DecayStep` | Assets/Scripts/WindManager.cs:130-141 | With a positive decay period: the carried timer ends in [0, period) and the shift count is at most N-1. The count is non-negative when the advanced timer is non-negative. Without a positive period the count is N-1 and the timer is untouched. |
| `WindHistory.DecayConservesTime` | Assets/Scripts/WindManager.cs:133-136 | The remainder is carried, not reset. If the count was not capped, carried timer plus count times period equals the old timer plus deltaTime. If it was capped, that sum is at most the old timer plus deltaTime. |
| `WindHistory.WithinOnePeriod` | Assets/Scripts/WindManager.cs:133-136 | If the advanced timer is below one period, the frame shifts nothing and keeps all its time. If it is in [one, two) periods, the frame shifts one slot and carries the excess. |
| `WindHistory.Shifted` | Assets/Scripts/WindManager.cs:166-175 | The shift keeps the length and the last slot. A count of 0 or less changes nothing. A count of N-1 or more collapses every slot to the last one. |
| `WindHistory.Interpolated` | Assets/Scripts/WindManager.cs:177-195 | The rebuilt current slots keep the live slot. A fraction of 0 or less reproduces the targets. A fraction of 1 or more gives each history slot its newer neighbour. |
| `WindHistory.BufferTick` | Assets/Scripts/WindManager.cs:126-199 | One buffer frame. `current[N-1] == target[N-1] ==` this frame's wind. Each history slot i takes the pre-shift slot i+k, or the wind past the end, and a count k of 0 or less leaves slots 0..N-2 unchanged. The instant path (period <= 0) collapses every slot to the wind with `current == target`. The decaying path keeps the timer in [0, period) and makes each current slot the lerp toward its neighbour by timer/period, equal to the target when the timer is 0. |
| `WindHistory.ZeroFrameSameWindIsFixedPoint` | Assets/Scripts/WindManager.cs:131-195 | After any frame, a zero-length frame with the same wind leaves the whole buffer state unchanged. |
| `WindHistory.RunSteady` | Assets/Scripts/WindManager.cs:49-53 | Supporting helper (a run of buffer frames, used by the multi-frame lemmas). After one or more frames of a constant wind, both arrays have length N and their live slots hold that wind. |
| `WindHistory.ElapsedIsProduct` | Assets/Scripts/WindManager.cs:133 | Supporting lemma. Accumulating n frames of deltaTime onto a timer adds exactly n times deltaTime. |
| `WindHistory.NoShiftWithinPeriod` | Assets/Scripts/WindManager.cs:131-175 | While the accumulated time stays below one period, no history slot moves and the timer holds exactly the elapsed time. |
| `WindHistory.OnePeriodShiftsOnce` | Assets/Scripts/WindManager.cs:131-186 | Frames that together last exactly one period, starting from a zero timer, shift the history by exactly one slot and leave a zero timer, so `current == target`. |
| `WindHistory.TenTenthsShiftOnce` | Assets/Scripts/WindManager.cs:131-186 | With a 1 s period and a fresh timer, ten frames of 0.1 s shift the history by exactly one slot, with no remainder. |
| `WindDirection.PickTarget` | Assets/Scripts/WindManager.cs:78 | A new target is Euler(180r - 180, 90, 0). For a draw r in [0,1] the tilt lies in [-180, 0], with the ends of the range at r = 0 and r = 1. |
| `WindDirection.StartTimer` | Assets/Scripts/WindManager.cs:61-62 | A drawn duration lies in [min, max] whenever min <= max and the draw is in [0,1]. Draws 0 and 1 give min and max, and min == max gives min. |
| `WindDirection.DirectionTick` | Assets/Scripts/WindManager.cs:64-124 | One direction frame. When the evaluate timer expires: the old target becomes the start; a new target and durations are drawn; the evaluate timer loses exactly its completed duration; the new evaluate duration is the drawn one plus the new rotate duration, so for a valid configuration and draws in [0,1] the rotate duration lies in [rotMin, rotMax] and the evaluate duration in [rotate + evalMin, rotMax + evalMax]; the rotate timer loses its completed duration. Otherwise the target, start and durations stay fixed and the evaluate timer advances by deltaTime. In both cases the rotate timer advances only while it is short of its duration. A finished rotation does not advance and heads exactly at the target. |
| `WindDirection.RotationCompletes` | Assets/Scripts/WindManager.cs:96-110 | If no re-evaluation falls in a run of non-negative frames: targets and durations stay fixed; the rotate timer gains exactly the elapsed time up to its duration; once elapsed reaches the remaining duration, the heading is exactly the target. A run lasting exactly the remaining time ends with no residual blend. |
| `WindDirection.TwoSecondRotationEndsAtTarget` | Assets/Scripts/WindManager.cs:64-110 | Worked case: rotate minimum and maximum both 2 s, a re-evaluation just as the previous rotation finished, and 2 s of frames in all with no further re-evaluation. The rotation then ends with its timer exactly at 2 s, heading exactly at the newly drawn target, blended from the previous target. |
| `Windy.WindManager.constructor` | Assets/Scripts/WindManager.cs:27-47 | Both buffers are fresh, distinct, length-N arrays of zero vectors. All timers and durations are zero and both rotations are the identity. |
| `Windy.WindManager.UpdateTimer` | Assets/Scripts/WindManager.cs:55-59 | The timer advances by exactly deltaTime, and it reports expiry iff the advanced timer reached the duration. |
| `Windy.WindManager.UpdateWindDirection` | Assets/Scripts/WindManager.cs:64-124 | The new direction fields are `DirectionTick` of the old ones, and the rotation written is the target once the rotate timer has reached its duration, otherwise the blend. On expiry the start takes the old target and the evaluate timer keeps its overshoot. A finished rotation does not advance. |
| `Windy.WindManager.UpdateBufferArrays` | Assets/Scripts/WindManager.cs:126-199 | The new buffers and decay timer are `BufferTick` of the old ones. Both live slots hold the wind, and every history slot of `target` is the pre-loop slot i+k (or the wind past the end). |
| `Windy.WindManager.AdvanceDecay` | Assets/Scripts/WindManager.cs:130-141 | The count and the carried timer are exactly those of `DecayStep`. |
| `Windy.WindManager.ShiftTargets` | Assets/Scripts/WindManager.cs:166-175 | The ascending in-place loop leaves `target` equal to `Shifted` of the array as it was before the loop. |
| `Windy.WindManager.RebuildCurrent` | Assets/Scripts/WindManager.cs:177-195 | `current` becomes `Interpolated(target, timer/period)` with a positive period, and a copy of `target` otherwise. |
| `Windy.WindManager.Update` | Assets/Scripts/WindManager.cs:49-53 | One frame: the direction tick, then the buffer tick, each exactly as above. |

Behaviour worth noting, each point resting on the cited line of `Assets/Scripts/WindManager.cs`:

- A zero rotate duration is not guarded, but it rarely reaches the division. The `>=` test at line 99 sends it to the target branch whenever the rotate timer is non-negative. Line 121 divides by zero only when the rotate timer is still negative after the frame. The `Slerp` term therefore keeps elapsed time and duration apart rather than inventing a quotient.
- A zero-length frame does not in general leave state unchanged:
  - line 162 always rewrites the live slot;
  - an evaluate timer that is still at or past its duration re-evaluates even with deltaTime 0, since the expiry test at line 58 is `>=`.

  The model proves the buffer fixed point only for a repeated wind (`ZeroFrameSameWindIsFixedPoint`).
- The instant path is taken for any decay period `<= 0` (the test at line 131 is `> 0`), not only for 0.
- The shift count is capped above at N-1 (line 136) but not below. A negative deltaTime can make it negative, and then nothing shifts (line 166).
- The evaluate duration is extended by the new rotate duration (line 93), so each evaluate period also covers the rotation it starts.

## Left out

- Float rounding and `Mathf.FloorToInt` overflow: times and vector components are exact reals.
- `Quaternion.Euler` and `Quaternion.Slerp` arithmetic: orientations are symbolic terms, as described above.
- The wind-zone null checks and the transform write (lines 107-122): `UpdateWindDirection` returns the rotation that would be written.
- The wind-vector projection from the zone's forward direction and `windMain` (lines 143-159): engine objects. The vector is an input to `UpdateBufferArrays` and `Update`.
- `Shader.PropertyToID`, the static constructor and `Shader.SetGlobalVectorArray` (lines 39-42, 198): output to the rendering host. The published array is `bufferCurrent`.
- `Random.value`: each re-evaluation takes its three draws as a `Draws` parameter, in call order (angle, rotate duration, evaluate duration).
- `Time.deltaTime`: a parameter of every frame method.
- `WindIndexer.cs`: one random index into the buffer plus a material property write through engine APIs, with no logic of its own.
