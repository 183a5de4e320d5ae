/**
 * The wind-direction timers of WindManager, as values. Orientations are kept
 * symbolic: a target is the Euler angles it was built from, and a blend is a
 * Slerp term, so the control logic is checked without quaternion arithmetic.
 */
module WindDirection {
  import opened RealArith

  /**
   * An orientation. `Euler` is Quaternion.Euler of the three angles (degrees);
   * `Slerp` is Quaternion.Slerp from `from` to `to` at the fraction
   * elapsed / duration, kept as the pair so that no value is invented for a
   * zero duration.
   */
  datatype Orientation =
    | Euler(x: real, y: real, z: real)
    | Slerp(from: Orientation, to: Orientation, elapsed: real, duration: real)

  /** Quaternion.identity. */
  const Identity: Orientation := Euler(0.0, 0.0, 0.0)

  /**
   * A new target rotation from one random draw in [0, 1]: a tilt about the
   * X axis in [-180, 0] degrees, always facing along Y at 90 degrees.
   */
  function PickTarget(r: real): (o: Orientation)
    ensures o.Euler? && o.y == 90.0 && o.z == 0.0
    ensures 0.0 <= r <= 1.0 ==> -180.0 <= o.x <= 0.0
    ensures r == 0.0 ==> o.x == -180.0
    ensures r == 1.0 ==> o.x == 0.0
  {
    Euler(180.0 * r - 180.0, 90.0, 0.0)
  }

  /**
   * StartTimer: a duration drawn from [minimum, maximum] by one random draw
   * in [0, 1]; the ends of the range are hit by the ends of the draw.
   */
  function StartTimer(secondsMinimum: real, secondsMaximum: real, r: real): (seconds: real)
    ensures 0.0 <= r <= 1.0 && secondsMinimum <= secondsMaximum ==>
              secondsMinimum <= seconds <= secondsMaximum
    ensures r == 0.0 ==> seconds == secondsMinimum
    ensures r == 1.0 ==> seconds == secondsMaximum
    ensures secondsMinimum == secondsMaximum ==> seconds == secondsMinimum
  {
    ProductNonNegative(secondsMaximum - secondsMinimum, r);
    ProductNonNegative(secondsMaximum - secondsMinimum, 1.0 - r);
    (secondsMaximum - secondsMinimum) * r + secondsMinimum
  }

  /** The three values Random.value yields in one re-evaluation, in call order. */
  datatype Draws = Draws(angle: real, rotate: real, evaluate: real)

  predicate ValidDraws(d: Draws)
  {
    0.0 <= d.angle <= 1.0 && 0.0 <= d.rotate <= 1.0 && 0.0 <= d.evaluate <= 1.0
  }

  /** The four configured duration bounds, in seconds. */
  datatype Config = Config(evaluateMinimum: real, evaluateMaximum: real, rotateMinimum: real, rotateMaximum: real)

  predicate ValidConfig(c: Config)
  {
    0.0 <= c.evaluateMinimum <= c.evaluateMaximum && 0.0 <= c.rotateMinimum <= c.rotateMaximum
  }

  /** The direction fields of WindManager. */
  datatype DirectionState = DirectionState(
    start: Orientation,
    target: Orientation,
    evaluateSeconds: real,
    evaluateTimer: real,
    rotateSeconds: real,
    rotateTimer: real)

  /** The state after Awake: both rotations the identity, every timer and duration zero. */
  const Initial: DirectionState := DirectionState(Identity, Identity, 0.0, 0.0, 0.0, 0.0)

  /** The rotation written to the wind zone: the target once the rotation is done, else the blend. */
  function Heading(s: DirectionState): (o: Orientation)
  {
    if s.rotateTimer >= s.rotateSeconds then s.target
    else Slerp(s.start, s.target, s.rotateTimer, s.rotateSeconds)
  }

  /** Whether the evaluate timer runs out in a frame of `deltaTime`. */
  predicate Expires(s: DirectionState, deltaTime: real)
  {
    s.evaluateTimer + deltaTime >= s.evaluateSeconds
  }

  /**
   * One call of UpdateWindDirection on values. When the evaluate timer runs
   * out, the old target becomes the start, a new target and new durations are
   * drawn, and both timers lose the duration they just completed. Then the
   * rotate timer advances, unless it had already reached its duration.
   */
  function DirectionTick(c: Config, s: DirectionState, deltaTime: real, d: Draws): (r: DirectionState)
    // Re-evaluation: the blend restarts from the previous target.
    ensures Expires(s, deltaTime) ==>
              r.start == s.target && r.target == PickTarget(d.angle) &&
              r.rotateSeconds == StartTimer(c.rotateMinimum, c.rotateMaximum, d.rotate) &&
              r.evaluateSeconds == StartTimer(c.evaluateMinimum, c.evaluateMaximum, d.evaluate) + r.rotateSeconds
    // Overshoot is carried: the evaluate timer loses exactly the completed duration.
    ensures Expires(s, deltaTime) ==> r.evaluateTimer + s.evaluateSeconds == s.evaluateTimer + deltaTime
    ensures Expires(s, deltaTime) && ValidConfig(c) && ValidDraws(d) ==>
              c.rotateMinimum <= r.rotateSeconds <= c.rotateMaximum &&
              r.rotateSeconds + c.evaluateMinimum <= r.evaluateSeconds <= c.rotateMaximum + c.evaluateMaximum
    // Without re-evaluation only the timers move.
    ensures !Expires(s, deltaTime) ==>
              r.start == s.start && r.target == s.target &&
              r.rotateSeconds == s.rotateSeconds && r.evaluateSeconds == s.evaluateSeconds &&
              r.evaluateTimer == s.evaluateTimer + deltaTime
    // The rotate timer, after losing the completed duration on re-evaluation,
    // advances by deltaTime only while it is short of the (new) duration.
    ensures var carried := if Expires(s, deltaTime) then s.rotateTimer - s.rotateSeconds else s.rotateTimer;
            (carried >= r.rotateSeconds ==> r.rotateTimer == carried) &&
            (carried < r.rotateSeconds ==> r.rotateTimer == carried + deltaTime)
    // A finished rotation stays finished and pointed exactly at its target.
    ensures !Expires(s, deltaTime) && s.rotateTimer >= s.rotateSeconds ==>
              r.rotateTimer == s.rotateTimer && Heading(r) == s.target
  {
    var evaluated :=
      if Expires(s, deltaTime) then
        var rotateSeconds := StartTimer(c.rotateMinimum, c.rotateMaximum, d.rotate);
        DirectionState(
          s.target,
          PickTarget(d.angle),
          StartTimer(c.evaluateMinimum, c.evaluateMaximum, d.evaluate) + rotateSeconds,
          s.evaluateTimer + deltaTime - s.evaluateSeconds,
          rotateSeconds,
          s.rotateTimer - s.rotateSeconds)
      else
        s.(evaluateTimer := s.evaluateTimer + deltaTime);
    if evaluated.rotateTimer >= evaluated.rotateSeconds then evaluated
    else evaluated.(rotateTimer := evaluated.rotateTimer + deltaTime)
  }

  /** Total length of a run of frames. */
  function Sum(deltaTimes: seq<real>): (total: real)
  {
    if deltaTimes == [] then 0.0 else deltaTimes[0] + Sum(deltaTimes[1..])
  }

  lemma {:induction false} SumNonNegative(deltaTimes: seq<real>)
    requires forall i | 0 <= i < |deltaTimes| :: deltaTimes[i] >= 0.0
    ensures Sum(deltaTimes) >= 0.0
  {
    if deltaTimes != [] {
      SumNonNegative(deltaTimes[1..]);
    }
  }

  /** A run of frames, the i-th with its own length and its own draws. */
  function Run(c: Config, s: DirectionState, deltaTimes: seq<real>, draws: seq<Draws>): (r: DirectionState)
    requires |draws| == |deltaTimes|
    decreases |deltaTimes|
  {
    if deltaTimes == [] then s
    else Run(c, DirectionTick(c, s, deltaTimes[0], draws[0]), deltaTimes[1..], draws[1..])
  }

  /**
   * While no re-evaluation falls in a run of frames, the rotation runs to
   * completion on schedule: the rotate timer gains exactly the elapsed time
   * until it reaches the duration, and from then on the heading is exactly the
   * target. A run lasting exactly the remaining rotation time ends with the
   * timer exactly at the duration (no residual blend).
   */
  lemma {:induction false} RotationCompletes(c: Config, s: DirectionState, deltaTimes: seq<real>, draws: seq<Draws>)
    requires |draws| == |deltaTimes|
    requires forall i | 0 <= i < |deltaTimes| :: deltaTimes[i] >= 0.0
    requires s.evaluateTimer + Sum(deltaTimes) < s.evaluateSeconds
    ensures var r := Run(c, s, deltaTimes, draws);
            r.start == s.start && r.target == s.target &&
            r.rotateSeconds == s.rotateSeconds && r.evaluateSeconds == s.evaluateSeconds &&
            r.evaluateTimer == s.evaluateTimer + Sum(deltaTimes) &&
            (s.rotateTimer + Sum(deltaTimes) <= s.rotateSeconds ==> r.rotateTimer == s.rotateTimer + Sum(deltaTimes)) &&
            (s.rotateTimer + Sum(deltaTimes) >= s.rotateSeconds ==> Heading(r) == s.target)
    decreases |deltaTimes|
  {
    if deltaTimes != [] {
      var rest := deltaTimes[1..];
      assert forall i | 0 <= i < |rest| :: rest[i] >= 0.0 by {
        forall i | 0 <= i < |rest| ensures rest[i] >= 0.0 {
          assert rest[i] == deltaTimes[i + 1];
        }
      }
      SumNonNegative(rest);
      var next := DirectionTick(c, s, deltaTimes[0], draws[0]);
      assert !Expires(s, deltaTimes[0]);
      RotationCompletes(c, next, rest, draws[1..]);
    }
  }

  /**
   * A worked case with a fixed two-second rotation (rotate minimum and maximum
   * both 2 s). A frame re-evaluates just as the previous rotation had finished
   * exactly; if no further re-evaluation falls in the following frames and
   * that frame plus the following ones last exactly 2 s, the rotation ends
   * exactly at the newly drawn target, blending from the previous one.
   */
  lemma TwoSecondRotationEndsAtTarget(c: Config, s: DirectionState, deltaTime: real, d: Draws,
                                      deltaTimes: seq<real>, draws: seq<Draws>)
    requires c.rotateMinimum == 2.0 && c.rotateMaximum == 2.0
    requires Expires(s, deltaTime) && s.rotateTimer == s.rotateSeconds
    requires 0.0 <= deltaTime && |draws| == |deltaTimes|
    requires forall i | 0 <= i < |deltaTimes| :: deltaTimes[i] >= 0.0
    requires deltaTime + Sum(deltaTimes) == 2.0
    requires var next := DirectionTick(c, s, deltaTime, d);
             next.evaluateTimer + Sum(deltaTimes) < next.evaluateSeconds
    ensures var r := Run(c, DirectionTick(c, s, deltaTime, d), deltaTimes, draws);
            r.start == s.target && r.target == PickTarget(d.angle) &&
            r.rotateSeconds == 2.0 && r.rotateTimer == 2.0 && Heading(r) == PickTarget(d.angle)
  {
    var next := DirectionTick(c, s, deltaTime, d);
    SumNonNegative(deltaTimes);
    assert next.rotateSeconds == 2.0 && next.rotateTimer == deltaTime;
    RotationCompletes(c, next, deltaTimes, draws);
  }
}
