/**
 * The haptic device as the node sees it: one report per IO cycle, and a
 * trace of what the node sends back (LED colours, forces, published joystick
 * messages, the final close).
 */
module Device {

  /** A position or force triple; device doubles are modelled as reals. */
  datatype Vec3 = Vec3(x: real, y: real, z: real)

  const Origin: Vec3 := Vec3(0.0, 0.0, 0.0)

  function Sub(a: Vec3, b: Vec3): Vec3
  {
    Vec3(a.x - b.x, a.y - b.y, a.z - b.z)
  }

  function Scale(k: real, a: Vec3): Vec3
  {
    Vec3(k * a.x, k * a.y, k * a.z)
  }

  /**
   * What one call of the device's IO loop yields: whether the exchange
   * succeeded, the firmware's homed flag, the grip position and the
   * button bitmask. Only meaningful when `ioOk` holds.
   */
  datatype Report = Report(ioOk: bool, homed: bool, pos: Vec3, buttons: int)

  predicate ReportsUnhomed(r: Report)
  {
    r.ioOk && !r.homed
  }

  predicate ReportsHomed(r: Report)
  {
    r.ioOk && r.homed
  }

  datatype Led = RedLed | BlueLed

  /** Everything the node does to the outside world, in order. */
  datatype Event =
    | HomingModeOn
    | MotorForcesSet(f0: int, f1: int, f2: int)  // raw integer motor forces, through the firmware
    | ForceSet(force: Vec3)                       // Cartesian force, through the device
    | LedSet(led: Led)
    | Published(buttons: int, axes: Vec3)
    | Closed
}
