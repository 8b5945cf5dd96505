# Arcade car physics: wheel forces and Ackermann steering, in Dafny

This project models the core of a small Unity arcade car. It covers two components.

- `Wheel` runs a fixed-rate step. The step probes the ground with a downward ray and clamps the
  spring length to the suspension travel. It computes a spring (Hooke's law) plus damper force,
  then picks exactly one of braking, driving or coasting along the wheel's forward axis. It adds
  linear lateral friction and applies the resulting force at the contact point. It also runs a
  render-rate step that eases the wheel's angle towards its steering target and latches the
  throttle axis.
- `Car` turns the horizontal input into the target angles of the two front wheels. Each wheel
  gets its own Ackermann radius.

Module layout:

- `Mathf` (`mathf.dfy`): the Unity helpers the code relies on, over `real`: `Clamp`, `Clamp01`,
  `Lerp` and `Rad2Deg`.
- `Suspension` (`suspension.dfy`): the fixed-step force rule as pure functions, and `Step`, the
  transition of the state a fixed step keeps. `Run` chains `Step` over a sequence of steps, and
  the lemmas about it state what holds across many steps.
- `Wheels` (`wheel.dfy`): the `Wheel` class, with its fields updated in place by `Update`,
  `FixedUpdate` and `UpdateWheelMeshPosition`. `FixedUpdate` builds the force step by step, as the
  C# does, and is proved equal to `Suspension.Step`. The module also holds the steering-smoothing
  function and its lemmas over runs of frames.
- `Steering` (`steering.dfy`): the Ackermann angle pair as a function of the input, and its
  lemmas.
- `Cars` (`car.dfy`): the `Car` class, whose `Update` writes the `steerAngle` fields of two
  `Wheel` objects in a three-way branch.

Engine calls are parameters or results. `Physics.Raycast` becomes an optional distance to the
ground; contact means the distance is present and within `SpringMaxLength + wheelRadius`.
`GetPointVelocity` followed by `InverseTransformDirection` becomes a wheel-local velocity
`(x, z)`. `AddForceAtPosition` becomes the returned `Force`: coefficients on the wheel's own up,
forward and right axes, or `None` when no force is applied. `Input.GetAxis` values and the frame
times are arguments. `Mathf.Atan` is a caller-supplied function `atan: real -> real` about which
nothing is assumed, except in `Steering.AckermannOuterShallower`. That lemma requires it to be
strictly increasing with `atan(0) = 0`.

Facts about the code that shape the model:

- The wheel whose radius is `turnRadius + rearTrack/2` is the outer wheel of a turn, the left one
  for a positive (rightward) input, and gets the smaller angle (`AckermannOuterShallower`).
- While airborne, `FixedUpdate` returns before writing the ground speed, so it stays frozen
  (`AirborneRunKeepsState`).
- The code does not guard the fixed time step, so `dt > 0` is a precondition.
- `turnRadius > rearTrack/2` is not validated. The model requires non-zero radii only where the
  code divides by them, and requires `turnRadius > rearTrack/2` only for the ordering lemma.

## Model

| member | source | states |
|---|---|---|
| `Mathf.Clamp` | Assets/Scripts/Wheel.cs:79 | for `min <= max` the result lies in `[min, max]`; a value already in range is returned unchanged; a value below `min` gives `min`, and a value not below `min` but above `max` gives `max` |
| `Mathf.Lerp` | Assets/Scripts/Wheel.cs:61 | the interpolated value never leaves the segment between the two ends; it equals the target end exactly when `t >= 1` (or the ends coincide) and the start exactly when `t <= 0` |
| `Suspension.SpringLength` | Assets/Scripts/Wheel.cs:78-79 | with non-negative travel the clamped spring length lies in `[springRestLength - springTravel, springRestLength + springTravel]`; inside that range it is the hit distance less the wheel radius; a hit closer than full compression gives the fully compressed length and one farther than full extension the fully extended length |
| `Suspension.ContactClampsOnlyCompression` | Assets/Scripts/Wheel.cs:75-79 | for every configuration, a hit the probe reports (no farther than `wheelRadius + SpringMaxLength`) never reaches the full-extension clamp: the spring length is the hit distance less the wheel radius, or the fully compressed length when that is shorter |
| `Suspension.SpringForceMeaning` | Assets/Scripts/Wheel.cs:88 | zero at rest length; with positive stiffness positive exactly when compressed below rest and negative exactly when extended; `springStiffness * springTravel` at full compression |
| `Suspension.DamperForceMeaning` | Assets/Scripts/Wheel.cs:91-92 | zero when the length is unchanged; with positive damper stiffness positive exactly while compressing and negative exactly while extending |
| `Suspension.SuspensionForcePushes` | Assets/Scripts/Wheel.cs:85-93 | equals the spring force when the length did not change; positive for a compressed spring that is not extending, given positive stiffnesses |
| `Suspension.TractionMode` | Assets/Scripts/Wheel.cs:101-108 | braking exactly when throttle and forward velocity have strictly opposite signs; driving exactly when not braking and the wheel is a drive wheel; otherwise coasting, so braking and driving never coincide |
| `Suspension.ForwardForceMeaning` | Assets/Scripts/Wheel.cs:101-108 | the forward force is throttle times load times brake power when braking, times engine power (never brake power) when driving, and zero when coasting; with positive load and power, a braking force opposes the forward velocity and a driving force has the throttle's sign |
| `Suspension.LateralForceOpposesSlip` | Assets/Scripts/Wheel.cs:110 | zero exactly when there is no sideways velocity, no load or no friction; opposes the sideways velocity when load and friction are positive |
| `Suspension.ContactForce` | Assets/Scripts/Wheel.cs:85-110 | the up component is the spring-plus-damper load; a coasting wheel has no forward component; no sideways slip or no friction gives no sideways component |
| `Suspension.ContactForceMeaning` | Assets/Scripts/Wheel.cs:85-110 | with positive load, a braking force opposes the forward velocity and a driving force has the throttle's sign; the sideways component is zero exactly when there is no slip, no load or no friction, and otherwise (positive load and friction) opposes the slip |
| `Suspension.Step` | Assets/Scripts/Wheel.cs:73-115 | a force is applied exactly when `Contact` holds, that is when the ray reports ground no farther than `wheelRadius + SpringMaxLength`; without contact the kept state is untouched; with contact the clamped spring length and forward speed are kept and the up component is the suspension force; a kept spring length within the travel stays within it |
| `Suspension.AirborneRunKeepsState` | Assets/Scripts/Wheel.cs:75-76 | any run of steps without contact leaves the spring-length history and ground speed exactly as they were |
| `Suspension.RunKeepsSpringInRange` | Assets/Scripts/Wheel.cs:78-114 | with non-negative travel, a kept spring length within the travel stays within it across any run of steps |
| `Suspension.RunRemembersLastContact` | Assets/Scripts/Wheel.cs:98-114 | after a run, the kept state is the clamped spring length and forward speed of the last step that had contact |
| `Suspension.DefaultFullCompression` | Assets/Scripts/Wheel.cs:6-17 | with the default settings a wheel whose ray hits at 0.285 has spring length 0.35 (full compression), and the spring then pushes with 4000 |
| `Wheels.SmoothedAngle` | Assets/Scripts/Wheel.cs:61 | one frame of smoothing keeps the wheel angle between its old value and the target, and lands on the target exactly when `steerTime * dt >= 1` (or it was there already) |
| `Wheels.SmoothRunBetween` | Assets/Scripts/Wheel.cs:59-61 | over any number of frames with a fixed target the wheel angle never overshoots: it stays between its start and the target |
| `Wheels.SmoothRunSnaps` | Assets/Scripts/Wheel.cs:59-61 | once any frame has `steerTime * dt >= 1`, the wheel angle is exactly the target at the end of the run |
| `Wheels.Wheel.constructor` | Assets/Scripts/Wheel.cs:47-55 | the previous spring length starts at the rest length, so the object invariant (kept spring length within the travel) holds; angles, latched throttle and ground speed start at zero |
| `Wheels.Wheel.Update` | Assets/Scripts/Wheel.cs:59-68 | the wheel angle becomes the smoothed angle towards `steerAngle`, between its old value and the target; the throttle axis is latched; nothing else changes |
| `Wheels.Wheel.UpdateWheelMeshPosition` | Assets/Scripts/Wheel.cs:117-121 | the mesh's local height becomes minus the spring length |
| `Wheels.Wheel.FixedUpdate` | Assets/Scripts/Wheel.cs:73-115 | the new spring-length history and ground speed and the applied force are exactly those of `Suspension.Step` on the old state and the latched throttle; airborne, the wheel is unchanged; with contact the mesh hangs at the new spring length; the invariant is kept |
| `Steering.Ackermann` | Assets/Scripts/Car.cs:19-28 | zero input gives exactly zero on both wheels; otherwise each wheel gets the full-lock angle of its radius for that turn direction (the outer radius for the left wheel on a right turn, the inner one on a left turn, and the reverse for the right wheel) times the input |
| `Steering.AckermannStraight` | Assets/Scripts/Car.cs:25-28 | zero steering input sets both angles to exactly zero |
| `Steering.AckermannRightTurn` | Assets/Scripts/Car.cs:19-21 | for positive input the left wheel gets `Rad2Deg * atan(wheelBase / (turnRadius + rearTrack/2)) * s` and the right wheel the `turnRadius - rearTrack/2` version |
| `Steering.AckermannMirror` | Assets/Scripts/Car.cs:19-24 | the angles for input `-s` are those for `s`, swapped between the wheels and negated |
| `Steering.AckermannLinear` | Assets/Scripts/Car.cs:19-24 | each wheel's angle is the full-lock angle of the radius it is given for that turn direction, times the input |
| `Steering.AckermannBounded` | Assets/Scripts/Car.cs:20-24 | for inputs in `[-1, 1]` no angle exceeds its full-lock angle in magnitude; an angle is zero exactly when the input or its full-lock angle is |
| `Steering.AckermannOuterShallower` | Assets/Scripts/Car.cs:18-24 | with an increasing arctangent through the origin, positive wheel base and track, and `turnRadius > rearTrack/2`, the outer wheel (radius `turnRadius + rearTrack/2`) always has a strictly smaller angle than the inner one |
| `Cars.Car.constructor` | Assets/Scripts/Car.cs:4-13 | the car holds the two front wheels and its geometry as given |
| `Cars.Car.Update` | Assets/Scripts/Car.cs:15-28 | both front wheels' `steerAngle` become the Ackermann angles for the input, exactly zero for zero input; no other field of either wheel changes |

## Left out

- `Assets/Scripts/Camera.cs`, the chase camera, has no logic beyond interpolation and is not part of this model.
- The wheel mesh's spin (`UpdateWheelMeshRotation`, Wheel.cs:67 and 123-125) and the wheel's visual rotation (`Quaternion.Euler`, Wheel.cs:62) are cosmetic and left out. The ground speed they read is modelled.
- `Start`'s lookups of the rigid body and the mesh child (Wheel.cs:49-50) are engine wiring and left out. The contact point passed to `AddForceAtPosition` is left out too; only the force is returned.
- Single-precision floating point is modelled by `real`: no rounding, no infinities, no NaN. `Rad2Deg` is the constant 57.29578. The numeric value of the arctangent is not modelled.
- `Steering.Ackermann` requires both Ackermann radii to be non-zero when the input is non-zero, and so do the `Steering` lemmas about it. In floats, a zero radius makes the quotient infinite and the angle ±90 degrees times the input, or NaN when the wheel base is also zero; with `real` that division is undefined.
- `Cars.Car.Update` has the same requirement, for the same reason.
- The summing of several wheels' forces in the rigid body, the order in which Unity runs the scripts, and the interleaving of the render and fixed clocks are not modelled. Each step is a separate call.
- The inspector settings (`WheelConfig`, `Geometry`) are constants of each object. In the editor they are public fields that could be changed while the game runs.
