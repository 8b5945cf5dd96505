/** The wheel component: a render-rate step that eases the wheel towards its steering target and
    latches the throttle, and a fixed-rate step that probes the ground and computes the force the
    wheel applies, following the rule in module Suspension. */
module Wheels {
  import opened Mathf
  import opened Suspension

  /** One render frame of steering: the wheel angle moves a fraction `steerTime * dt` of the way to
      the target, never past it, and lands on it once that fraction reaches 1. */
  function SmoothedAngle(angle: real, target: real, steerTime: real, dt: real): (r: real)
    ensures Between(r, angle, target)
    ensures r == target <==> (steerTime * dt >= 1.0 || angle == target)
  {
    Lerp(angle, target, steerTime * dt)
  }

  /** The wheel angle after a run of render frames with frame times `dts` and a fixed target. */
  function SmoothRun(angle: real, target: real, steerTime: real, dts: seq<real>): real
    decreases |dts|
  {
    if dts == [] then angle
    else SmoothRun(SmoothedAngle(angle, target, steerTime, dts[0]), target, steerTime, dts[1..])
  }

  /** However many frames pass, the wheel angle never overshoots: it stays between where it
      started and its target. */
  lemma {:induction false} SmoothRunBetween(angle: real, target: real, steerTime: real, dts: seq<real>)
    ensures Between(SmoothRun(angle, target, steerTime, dts), angle, target)
    decreases |dts|
  {
    if dts != [] {
      var next := SmoothedAngle(angle, target, steerTime, dts[0]);
      SmoothRunBetween(next, target, steerTime, dts[1..]);
    }
  }

  /** Once some frame is long enough that `steerTime * dt >= 1`, the wheel sits exactly on its
      target from then on. */
  lemma {:induction false} SmoothRunSnaps(angle: real, target: real, steerTime: real, dts: seq<real>, k: nat)
    requires k < |dts| && steerTime * dts[k] >= 1.0
    ensures SmoothRun(angle, target, steerTime, dts) == target
    decreases |dts|
  {
    var next := SmoothedAngle(angle, target, steerTime, dts[0]);
    if k == 0 {
      SmoothRunBetween(next, target, steerTime, dts[1..]);
    } else {
      SmoothRunSnaps(next, target, steerTime, dts[1..], k - 1);
    }
  }

  class Wheel {
    const config: WheelConfig

    /** Spring length at the last fixed step that had ground contact. */
    var prevSpringLength: real
    /** Target wheel angle in degrees, written by the car. */
    var steerAngle: real
    /** Current wheel angle in degrees, eased towards `steerAngle`. */
    var wheelAngle: real
    /** Throttle axis latched at the last render frame. */
    var verticalInput: real
    /** Forward ground speed at the last fixed step that had ground contact. */
    var groundSpeed: real
    /** Vertical position of the wheel mesh below the mount (its local y). */
    var meshLocalY: real

    /** Whenever the travel is non-negative, the remembered spring length lies within it. */
    ghost predicate Valid()
      reads this
    {
      config.springTravel >= 0.0 ==> SpringMinLength(config) <= prevSpringLength <= SpringMaxLength(config)
    }

    function Physics(): PhysicsState
      reads this
    {
      PhysicsState(prevSpringLength, groundSpeed)
    }

    /** `Start`: the car begins at rest, so the previous spring length is the rest length; every
        other field starts at zero and the mesh where the scene placed it. */
    constructor (config: WheelConfig, meshLocalY: real)
      ensures Valid()
      ensures this.config == config && this.meshLocalY == meshLocalY
      ensures prevSpringLength == config.springRestLength
      ensures steerAngle == 0.0 && wheelAngle == 0.0 && verticalInput == 0.0 && groundSpeed == 0.0
    {
      this.config := config;
      this.meshLocalY := meshLocalY;
      prevSpringLength := config.springRestLength;
      steerAngle := 0.0;
      wheelAngle := 0.0;
      verticalInput := 0.0;
      groundSpeed := 0.0;
    }

    /** `Update`, once per render frame of length `dt`: ease the wheel angle towards the target and
        latch the throttle axis for the next fixed steps. */
    method Update(verticalAxis: real, dt: real)
      requires Valid()
      modifies this`wheelAngle, this`verticalInput
      ensures Valid()
      ensures wheelAngle == SmoothedAngle(old(wheelAngle), steerAngle, config.steerTime, dt)
      ensures Between(wheelAngle, old(wheelAngle), steerAngle)
      ensures verticalInput == verticalAxis
    {
      wheelAngle := Lerp(wheelAngle, steerAngle, config.steerTime * dt);
      verticalInput := verticalAxis;
    }

    /** The wheel mesh hangs `springLength` below the mount. */
    method UpdateWheelMeshPosition(springLength: real)
      modifies this`meshLocalY
      ensures meshLocalY == -springLength
    {
      meshLocalY := -springLength;
    }

    /** `FixedUpdate`, once per fixed step of length `dt`. `groundDistance` is what the downward
        ray finds (if anything) and `velocity` the body's velocity at the hit point in the wheel's
        frame. Returns the force applied at the hit point, or None when the wheel is airborne, in
        which case nothing about the wheel changes. */
    method FixedUpdate(groundDistance: Option<real>, velocity: LocalVelocity, dt: real) returns (applied: Option<Force>)
      requires Valid() && dt > 0.0
      modifies this`prevSpringLength, this`groundSpeed, this`meshLocalY
      ensures Valid()
      ensures StepResult(Physics(), applied) == Step(config, old(Physics()), Sample(groundDistance, verticalInput, velocity, dt))
      ensures applied.None? ==> unchanged(this)
      ensures applied.Some? ==> meshLocalY == -prevSpringLength
    {
      var isContact := groundDistance.Some? && 0.0 <= groundDistance.value <= SpringMaxLength(config) + config.wheelRadius;
      if !isContact {
        return None;
      }

      var springLength := groundDistance.value - config.wheelRadius;
      springLength := Clamp(springLength, SpringMinLength(config), SpringMaxLength(config));

      UpdateWheelMeshPosition(springLength);

      var suspensionForce := 0.0;
      var springForce := config.springStiffness * (config.springRestLength - springLength);
      assert springForce == SpringForce(config, springLength);
      suspensionForce := suspensionForce + springForce;

      var springVelocity := (prevSpringLength - springLength) / dt;
      var damperForce := config.damperStiffness * springVelocity;
      assert damperForce == DamperForce(config, prevSpringLength, springLength, dt);
      suspensionForce := suspensionForce + damperForce;

      var force := Force(suspensionForce, 0.0, 0.0);
      assert force.up == SuspensionForce(config, old(prevSpringLength), springLength, dt);

      groundSpeed := velocity.z;

      var isBraking := verticalInput * velocity.z < 0.0;
      if isBraking {
        force := force.(forward := force.forward + verticalInput * suspensionForce * config.brakesPower);
      } else if config.wheelDriving {
        force := force.(forward := force.forward + verticalInput * suspensionForce * config.enginePower);
      }
      assert force.forward == ForwardForce(config, verticalInput, velocity.z, suspensionForce);

      var friction := -(velocity.x * suspensionForce * config.wheelFriction);
      assert friction == LateralForce(config, velocity.x, suspensionForce);
      force := force.(right := force.right + friction);

      applied := Some(force);

      prevSpringLength := springLength;
    }
  }
}
