/** The car component: once per render frame it turns the horizontal input into the target angles
    of its two front wheels. */
module Cars {
  import opened Mathf
  import opened Steering
  import opened Wheels

  class Car {
    const wheelFl: Wheel
    const wheelFr: Wheel
    const geometry: Geometry

    constructor (wheelFl: Wheel, wheelFr: Wheel, geometry: Geometry)
      ensures this.wheelFl == wheelFl && this.wheelFr == wheelFr && this.geometry == geometry
    {
      this.wheelFl := wheelFl;
      this.wheelFr := wheelFr;
      this.geometry := geometry;
    }

    /** `Update`: writes both front wheels' target angle from the steering input `steerInput`,
        with `atan` standing for the engine's arctangent. Nothing else of either wheel changes.
        Should both fields name one wheel, the right-wheel angle is the one that stays. */
    method Update(steerInput: real, atan: real -> real)
      requires steerInput != 0.0 ==> Divisible(geometry)
      modifies wheelFl`steerAngle, wheelFr`steerAngle
      ensures wheelFr.steerAngle == Ackermann(atan, geometry, steerInput).right
      ensures wheelFl != wheelFr ==> wheelFl.steerAngle == Ackermann(atan, geometry, steerInput).left
      ensures steerInput == 0.0 ==> wheelFl.steerAngle == 0.0 && wheelFr.steerAngle == 0.0
      ensures unchanged(wheelFl`prevSpringLength, wheelFl`wheelAngle, wheelFl`verticalInput, wheelFl`groundSpeed, wheelFl`meshLocalY)
      ensures unchanged(wheelFr`prevSpringLength, wheelFr`wheelAngle, wheelFr`verticalInput, wheelFr`groundSpeed, wheelFr`meshLocalY)
    {
      if steerInput > 0.0 {
        wheelFl.steerAngle := Rad2Deg * atan(geometry.wheelBase / (geometry.turnRadius + geometry.rearTrack / 2.0)) * steerInput;
        wheelFr.steerAngle := Rad2Deg * atan(geometry.wheelBase / (geometry.turnRadius - geometry.rearTrack / 2.0)) * steerInput;
      } else if steerInput < 0.0 {
        wheelFl.steerAngle := Rad2Deg * atan(geometry.wheelBase / (geometry.turnRadius - geometry.rearTrack / 2.0)) * steerInput;
        wheelFr.steerAngle := Rad2Deg * atan(geometry.wheelBase / (geometry.turnRadius + geometry.rearTrack / 2.0)) * steerInput;
      } else {
        wheelFl.steerAngle := 0.0;
        wheelFr.steerAngle := 0.0;
      }
    }
  }
}
