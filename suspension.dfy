/** The per-wheel force rule of `Wheel.FixedUpdate` as pure functions: contact probe, clamped spring
    length, spring and damper (the suspension force), the brake/drive choice, lateral friction, and
    the physics state a fixed step leaves behind. The class in module Wheels runs this rule in place. */
module Suspension {
  import opened Mathf

  datatype Option<T> = None | Some(value: T)

  /** The inspector settings of one wheel; the running game never changes them. */
  datatype WheelConfig = WheelConfig(
    springRestLength: real,
    springTravel: real,
    springStiffness: real,
    damperStiffness: real,
    wheelRadius: real,
    wheelFriction: real,
    wheelDriving: bool,
    steerTime: real,
    enginePower: real,
    brakesPower: real)

  /** The defaults a fresh wheel component starts with. */
  const DefaultConfig := WheelConfig(0.45, 0.1, 40000.0, 4000.0, 0.285, 2.0, false, 6.0, 1.0, 2.0)

  function SpringMinLength(c: WheelConfig): real { c.springRestLength - c.springTravel }

  function SpringMaxLength(c: WheelConfig): real { c.springRestLength + c.springTravel }

  /** How far down the contact ray reaches from the top of the rim. */
  function ProbeRange(c: WheelConfig): real { SpringMaxLength(c) + c.wheelRadius }

  /** The raycast reports a hit: there is ground below, no farther than the probe reaches. */
  predicate Contact(c: WheelConfig, groundDistance: Option<real>)
    ensures Contact(c, groundDistance) ==>
              groundDistance.Some? && groundDistance.value - c.wheelRadius <= SpringMaxLength(c)
  {
    groundDistance.Some? && 0.0 <= groundDistance.value <= ProbeRange(c)
  }

  /** The spring length a step works with: the distance to the ground less the wheel radius, held
      within the suspension travel. */
  function SpringLength(c: WheelConfig, hitDistance: real): (len: real)
    ensures c.springTravel >= 0.0 ==> SpringMinLength(c) <= len <= SpringMaxLength(c)
    ensures SpringMinLength(c) <= hitDistance - c.wheelRadius <= SpringMaxLength(c) ==>
              len == hitDistance - c.wheelRadius
    ensures hitDistance - c.wheelRadius < SpringMinLength(c) ==> len == SpringMinLength(c)
    ensures SpringMinLength(c) <= hitDistance - c.wheelRadius && hitDistance - c.wheelRadius > SpringMaxLength(c) ==>
              len == SpringMaxLength(c)
  {
    Clamp(hitDistance - c.wheelRadius, SpringMinLength(c), SpringMaxLength(c))
  }

  /** The probe reaches exactly to full extension, so for every configuration the clamp of a hit
      the probe reports only ever acts at full compression: the spring length is the distance
      less the wheel radius, or the fully compressed length when that is shorter. */
  lemma ContactClampsOnlyCompression(c: WheelConfig, groundDistance: Option<real>)
    ensures Contact(c, groundDistance) ==>
              SpringLength(c, groundDistance.value) ==
                (if groundDistance.value - c.wheelRadius < SpringMinLength(c) then SpringMinLength(c)
                 else groundDistance.value - c.wheelRadius)
  {
  }

  /** Hooke's law along the wheel's up axis. */
  function SpringForce(c: WheelConfig, len: real): real {
    c.springStiffness * (c.springRestLength - len)
  }

  /** The spring pushes nothing at rest length, pushes up exactly while compressed, pulls down
      exactly while extended (for a positive stiffness), and gives stiffness times travel at full
      compression. */
  lemma SpringForceMeaning(c: WheelConfig, len: real)
    ensures len == c.springRestLength ==> SpringForce(c, len) == 0.0
    ensures c.springStiffness > 0.0 ==> (SpringForce(c, len) > 0.0 <==> len < c.springRestLength)
    ensures c.springStiffness > 0.0 ==> (SpringForce(c, len) < 0.0 <==> len > c.springRestLength)
    ensures len == SpringMinLength(c) ==> SpringForce(c, len) == c.springStiffness * c.springTravel
  {
    ProductSigns(c.springStiffness, c.springRestLength - len);
    ProductSigns(c.springStiffness, len - c.springRestLength);
  }

  /** The damper resists the rate at which the spring length changed since the last step. */
  function DamperForce(c: WheelConfig, prevLen: real, len: real, dt: real): real
    requires dt > 0.0
  {
    var springVelocity := (prevLen - len) / dt;
    c.damperStiffness * springVelocity
  }

  /** For a positive damper stiffness the damper pushes up exactly while the spring shortens and
      pulls down exactly while it lengthens; it is zero when the length stays put. */
  lemma DamperForceMeaning(c: WheelConfig, prevLen: real, len: real, dt: real)
    requires dt > 0.0
    ensures prevLen == len ==> DamperForce(c, prevLen, len, dt) == 0.0
    ensures c.damperStiffness > 0.0 ==> (DamperForce(c, prevLen, len, dt) > 0.0 <==> prevLen > len)
    ensures c.damperStiffness > 0.0 ==> (DamperForce(c, prevLen, len, dt) < 0.0 <==> prevLen < len)
  {
    var springVelocity := (prevLen - len) / dt;
    assert springVelocity > 0.0 <==> prevLen > len;
    assert springVelocity < 0.0 <==> prevLen < len;
    ProductSigns(c.damperStiffness, springVelocity);
    ProductSigns(c.damperStiffness, -springVelocity);
  }

  /** Spring plus damper: how hard the wheel presses on the ground. */
  function SuspensionForce(c: WheelConfig, prevLen: real, len: real, dt: real): real
    requires dt > 0.0
  {
    SpringForce(c, len) + DamperForce(c, prevLen, len, dt)
  }

  /** A compressed spring that is not extending presses the wheel onto the ground (positive
      stiffnesses); with no change of length the load is the spring force alone. */
  lemma SuspensionForcePushes(c: WheelConfig, prevLen: real, len: real, dt: real)
    requires dt > 0.0
    ensures prevLen == len ==> SuspensionForce(c, prevLen, len, dt) == SpringForce(c, len)
    ensures c.springStiffness > 0.0 && c.damperStiffness > 0.0 ==>
              (len < c.springRestLength && prevLen >= len ==> SuspensionForce(c, prevLen, len, dt) > 0.0)
  {
    SpringForceMeaning(c, len);
    DamperForceMeaning(c, prevLen, len, dt);
  }

  /** What the wheel does along its forward axis in a step with contact; exactly one of the three. */
  datatype Traction = Braking | Driving | Coasting

  /** Braking when the throttle pushes against the direction the contact point is moving;
      otherwise a drive wheel drives and any other wheel coasts. */
  function TractionMode(throttle: real, forwardVelocity: real, driving: bool): (m: Traction)
    ensures m.Braking? <==> (throttle > 0.0 && forwardVelocity < 0.0) || (throttle < 0.0 && forwardVelocity > 0.0)
    ensures m.Driving? <==> !m.Braking? && driving
  {
    ProductSigns(throttle, forwardVelocity);
    ProductSigns(-throttle, forwardVelocity);
    ProductSigns(throttle, -forwardVelocity);
    if throttle * forwardVelocity < 0.0 then Braking
    else if driving then Driving
    else Coasting
  }

  /** The forward-axis force: throttle times load, times brake power when braking and engine
      power when driving; zero when coasting. */
  function ForwardForce(c: WheelConfig, throttle: real, forwardVelocity: real, load: real): real {
    match TractionMode(throttle, forwardVelocity, c.wheelDriving)
    case Braking => throttle * load * c.brakesPower
    case Driving => throttle * load * c.enginePower
    case Coasting => 0.0
  }

  /** Braking and driving exclude each other: a braking wheel uses brake power only, a driving
      wheel engine power only, and a coasting wheel adds nothing. With positive load and power, a
      braking force opposes the forward velocity and a driving force follows the throttle. */
  lemma ForwardForceMeaning(c: WheelConfig, throttle: real, forwardVelocity: real, load: real)
    ensures TractionMode(throttle, forwardVelocity, c.wheelDriving).Coasting? ==>
              ForwardForce(c, throttle, forwardVelocity, load) == 0.0
    ensures TractionMode(throttle, forwardVelocity, c.wheelDriving).Braking? ==>
              ForwardForce(c, throttle, forwardVelocity, load) == throttle * load * c.brakesPower
    ensures TractionMode(throttle, forwardVelocity, c.wheelDriving).Driving? ==>
              ForwardForce(c, throttle, forwardVelocity, load) == throttle * load * c.enginePower
    ensures TractionMode(throttle, forwardVelocity, c.wheelDriving).Braking? && load > 0.0 && c.brakesPower > 0.0 ==>
              ForwardForce(c, throttle, forwardVelocity, load) * forwardVelocity < 0.0
    ensures TractionMode(throttle, forwardVelocity, c.wheelDriving).Driving? && load > 0.0 && c.enginePower > 0.0 ==>
              (ForwardForce(c, throttle, forwardVelocity, load) > 0.0 <==> throttle > 0.0) &&
              (ForwardForce(c, throttle, forwardVelocity, load) < 0.0 <==> throttle < 0.0)
  {
    var grip := load * c.brakesPower;
    var push := load * c.enginePower;
    ProductSigns(load, c.brakesPower);
    ProductSigns(load, c.enginePower);
    ProductSigns(throttle, push);
    ProductSigns(-throttle, push);
    ProductSigns(throttle * forwardVelocity, grip);
    assert throttle * load * c.brakesPower * forwardVelocity == (throttle * forwardVelocity) * grip;
    assert throttle * load * c.enginePower == throttle * push;
  }

  /** Linear lateral friction along the wheel's right axis, against the sideways velocity. */
  function LateralForce(c: WheelConfig, lateralVelocity: real, load: real): real {
    -(lateralVelocity * load * c.wheelFriction)
  }

  /** The lateral force is zero exactly when there is no sideways slip, no load or no friction,
      and it opposes the slip when load and friction are positive. */
  lemma LateralForceOpposesSlip(c: WheelConfig, lateralVelocity: real, load: real)
    ensures LateralForce(c, lateralVelocity, load) == 0.0 <==>
              lateralVelocity == 0.0 || load == 0.0 || c.wheelFriction == 0.0
    ensures load > 0.0 && c.wheelFriction > 0.0 && lateralVelocity != 0.0 ==>
              LateralForce(c, lateralVelocity, load) * lateralVelocity < 0.0
  {
    var drag := load * c.wheelFriction;
    ProductSigns(load, c.wheelFriction);
    ProductSigns(lateralVelocity, drag);
    ProductSigns(lateralVelocity * lateralVelocity, drag);
    assert lateralVelocity * load * c.wheelFriction == lateralVelocity * drag;
    assert -(lateralVelocity * drag) * lateralVelocity == -((lateralVelocity * lateralVelocity) * drag);
  }

  /** A force as coefficients on the wheel's own up, forward and right axes. */
  datatype Force = Force(up: real, forward: real, right: real)

  /** Velocity of the body at the contact point in the wheel's frame: sideways (x) and forward (z). */
  datatype LocalVelocity = LocalVelocity(x: real, z: real)

  /** The force a wheel in contact applies at the contact point: the suspension load along the up
      axis, one of braking, driving or nothing along the forward axis, and friction against the
      sideways slip along the right axis. */
  function ContactForce(c: WheelConfig, prevLen: real, len: real, throttle: real, v: LocalVelocity, dt: real): (f: Force)
    requires dt > 0.0
    ensures f.up == SuspensionForce(c, prevLen, len, dt)
    ensures TractionMode(throttle, v.z, c.wheelDriving).Coasting? ==> f.forward == 0.0
    ensures v.x == 0.0 || c.wheelFriction == 0.0 ==> f.right == 0.0
  {
    var load := SuspensionForce(c, prevLen, len, dt);
    Force(load, ForwardForce(c, throttle, v.z, load), LateralForce(c, v.x, load))
  }

  /** What the contact force does: it only coasts, brakes against the motion or drives with the
      throttle; its sideways part vanishes exactly when there is no slip, no load or no friction,
      and otherwise (with positive load and friction) opposes the slip. */
  lemma ContactForceMeaning(c: WheelConfig, prevLen: real, len: real, throttle: real, v: LocalVelocity, dt: real)
    requires dt > 0.0
    ensures var f := ContactForce(c, prevLen, len, throttle, v, dt);
            TractionMode(throttle, v.z, c.wheelDriving).Braking? && f.up > 0.0 && c.brakesPower > 0.0 ==>
              f.forward * v.z < 0.0
    ensures var f := ContactForce(c, prevLen, len, throttle, v, dt);
            TractionMode(throttle, v.z, c.wheelDriving).Driving? && f.up > 0.0 && c.enginePower > 0.0 ==>
              (f.forward > 0.0 <==> throttle > 0.0) && (f.forward < 0.0 <==> throttle < 0.0)
    ensures var f := ContactForce(c, prevLen, len, throttle, v, dt);
            f.right == 0.0 <==> v.x == 0.0 || f.up == 0.0 || c.wheelFriction == 0.0
    ensures var f := ContactForce(c, prevLen, len, throttle, v, dt);
            f.up > 0.0 && c.wheelFriction > 0.0 && v.x != 0.0 ==> f.right * v.x < 0.0
  {
    var load := SuspensionForce(c, prevLen, len, dt);
    ForwardForceMeaning(c, throttle, v.z, load);
    LateralForceOpposesSlip(c, v.x, load);
  }

  /** What a fixed step remembers: the spring length for the next damper velocity, and the forward
      ground speed the wheel mesh spins with. */
  datatype PhysicsState = PhysicsState(prevSpringLength: real, groundSpeed: real)

  /** Everything one fixed step reads from outside the wheel. */
  datatype Sample = Sample(groundDistance: Option<real>, throttle: real, velocity: LocalVelocity, dt: real)

  datatype StepResult = StepResult(state: PhysicsState, force: Option<Force>)

  predicate SpringInRange(c: WheelConfig, s: PhysicsState) {
    SpringMinLength(c) <= s.prevSpringLength <= SpringMaxLength(c)
  }

  /** One fixed step: without contact, no force and nothing remembered changes; with contact, the
      clamped spring length and the forward ground speed are remembered and a force is applied.
      A remembered spring length inside the travel stays inside it. */
  function Step(c: WheelConfig, s: PhysicsState, x: Sample): (r: StepResult)
    requires x.dt > 0.0
    ensures r.force.Some? <==> Contact(c, x.groundDistance)
    ensures !Contact(c, x.groundDistance) ==> r.state == s
    ensures Contact(c, x.groundDistance) ==>
              r.state == PhysicsState(SpringLength(c, x.groundDistance.value), x.velocity.z)
    ensures Contact(c, x.groundDistance) ==>
              r.force.value.up == SuspensionForce(c, s.prevSpringLength, r.state.prevSpringLength, x.dt)
    ensures c.springTravel >= 0.0 && SpringInRange(c, s) ==> SpringInRange(c, r.state)
  {
    if !Contact(c, x.groundDistance) then StepResult(s, None)
    else
      var len := SpringLength(c, x.groundDistance.value);
      StepResult(PhysicsState(len, x.velocity.z),
                 Some(ContactForce(c, s.prevSpringLength, len, x.throttle, x.velocity, x.dt)))
  }

  predicate PositiveSteps(xs: seq<Sample>) {
    forall i :: 0 <= i < |xs| ==> xs[i].dt > 0.0
  }

  /** The physics state after a run of fixed steps. */
  function Run(c: WheelConfig, s: PhysicsState, xs: seq<Sample>): PhysicsState
    requires PositiveSteps(xs)
    decreases |xs|
  {
    if xs == [] then s else Run(c, Step(c, s, xs[0]).state, xs[1..])
  }

  /** Any number of airborne steps leave the physics state exactly as it was. */
  lemma {:induction false} AirborneRunKeepsState(c: WheelConfig, s: PhysicsState, xs: seq<Sample>)
    requires PositiveSteps(xs)
    requires forall i :: 0 <= i < |xs| ==> !Contact(c, xs[i].groundDistance)
    ensures Run(c, s, xs) == s
    decreases |xs|
  {
    if xs != [] {
      assert Step(c, s, xs[0]).state == s;
      assert forall i :: 0 <= i < |xs[1..]| ==> xs[1..][i] == xs[i + 1];
      AirborneRunKeepsState(c, s, xs[1..]);
    }
  }

  /** A remembered spring length inside the travel stays inside it, whatever the steps. */
  lemma {:induction false} RunKeepsSpringInRange(c: WheelConfig, s: PhysicsState, xs: seq<Sample>)
    requires PositiveSteps(xs)
    requires c.springTravel >= 0.0 && SpringInRange(c, s)
    ensures SpringInRange(c, Run(c, s, xs))
    decreases |xs|
  {
    if xs != [] {
      assert forall i :: 0 <= i < |xs[1..]| ==> xs[1..][i] == xs[i + 1];
      RunKeepsSpringInRange(c, Step(c, s, xs[0]).state, xs[1..]);
    }
  }

  /** After a run, the remembered state is the one the last step with contact left, or the
      initial one if no step had contact. */
  lemma {:induction false} RunRemembersLastContact(c: WheelConfig, s: PhysicsState, xs: seq<Sample>, k: nat)
    requires PositiveSteps(xs)
    requires k < |xs| && Contact(c, xs[k].groundDistance)
    requires forall i :: k < i < |xs| ==> !Contact(c, xs[i].groundDistance)
    ensures Run(c, s, xs) == PhysicsState(SpringLength(c, xs[k].groundDistance.value), xs[k].velocity.z)
    decreases |xs|
  {
    assert forall i :: 0 <= i < |xs[1..]| ==> xs[1..][i] == xs[i + 1];
    if k == 0 {
      AirborneRunKeepsState(c, Step(c, s, xs[0]).state, xs[1..]);
    } else {
      RunRemembersLastContact(c, Step(c, s, xs[0]).state, xs[1..], k - 1);
    }
  }

  /** With the default settings, a spring at full compression pushes with 40000 * 0.1 = 4000. */
  lemma DefaultFullCompression()
    ensures SpringLength(DefaultConfig, 0.285) == 0.35
    ensures SpringForce(DefaultConfig, 0.35) == 4000.0
  {
  }
}
