# Falcon joystick node, modelled in Dafny

This project models the control core of a ROS node that drives a Novint Falcon
haptic device (`src/joystickfeedback3.cpp`). The node does three things:

- **Bring-up** (`init_falcon`). It opens the device and loads firmware if none
  is resident, with at most 20 attempts. Then it waits until the operator has
  homed the grip. The LED turns red when homing is needed and blue when it is
  done.
- **Per-tick force rule.** Buttons equal to 4 (coag) or 2 (clutch) select a
  hold mode with a fixed force (0, 0, 3). Any other value selects a PD law
  towards the reference position `newHome`, with Kp = -200 and Kd = -500 on
  every axis. Releasing a hold re-zeros `newHome` at the current position.
- **Control loop** (`main`). It runs only after a successful bring-up. A
  successful IO cycle publishes (buttons, position), sets the force and
  remembers the position. A failed cycle does nothing. The device is closed
  after the loop.

The device is modelled as a finite stream of `Report`s: IO success, the
homed flag, position and button bitmask. Each `runIOLoop` call consumes one
report. This includes the two calls whose results `init_falcon` ignores
(lines 114 and 149). Everything the node does to the device or the outside
world is an `Event` trace: homing mode, forces, LED colours, published
messages and the close. Two different force calls are kept apart. The raw
integer motor forces set through the firmware at line 113 are
`MotorForcesSet`. The Cartesian force set through the device at line 280 is
`ForceSet`.

Modules:
- `Device`: vectors, reports, events.
- `ForceController`: the pure per-tick rule.
- `Driver`: the loop as a specification fold (`RunTicks`) and as the
  imperative `ControlLoop` proved equal to it.
- `Bringup`: the firmware retry loop, the homing loop and `InitFalcon`.
- `Node`: the gating in `main`.

`prevPos` and `newHome` are explicit state carried across ticks. This follows
what the assignments at lines 268, 273 and 290 intend. The code itself declares
both inside the loop body (lines 214 and 222), so as written they are
uninitialised on every tick. Their initial values are parameters of
`RunNode`. The initial flag values come from `NodeParams`, whose defaults are
`true` (lines 191-192).

## Model

| member | source | states |
|---|---|---|
| `ForceController.PdForce` | src/joystickfeedback3.cpp:241-248 | Gains are Kp = -200 and Kd = -500 (lines 241-247, law at 276-278). At rest on the reference the force is zero. When not moving, each axis gets a restoring force towards the reference. On the reference, the force is pure damping, -500·(pos - prev). |
| `ForceController.ControlTick` | src/joystickfeedback3.cpp:250-279 | prevPos becomes pos (line 290). On buttons 4 or 2 the force is (0,0,3), home is kept, and coag (on 4) or clutch (on 2) is latched. Other values give the PD law towards the possibly re-zeroed home. On a release edge home := pos and coag is cleared before clutch. With no latched flag only prevPos changes. |
| `ForceController.HoldForceIndependent` | src/joystickfeedback3.cpp:251-262 | A hold tick's force is (0,0,3) whatever the state and the position. |
| `ForceController.HoldKeepsFlagsAndHome` | src/joystickfeedback3.cpp:251-259 | A hold tick never clears a flag and never moves home. It sets coag only on 4 and clutch only on 2. |
| `ForceController.HomeMovesOnlyOnRelease` | src/joystickfeedback3.cpp:264-274 | Home changes only on a release edge, and then to the current position. |
| `ForceController.AtMostOneFlagCleared` | src/joystickfeedback3.cpp:265-274 | At most one latched flag is cleared per tick. |
| `ForceController.ReleaseForceIsDamping` | src/joystickfeedback3.cpp:265-278 | On a release tick the spring term vanishes: force = -500·(pos - prevPos). |
| `ForceController.RestingFreeTickIsForceFree` | src/joystickfeedback3.cpp:276-278 | A free tick with pos = home = prevPos yields (0,0,0). |
| `ForceController.UnitDisplacementForce` | src/joystickfeedback3.cpp:241-248 | From home = prev = origin with nothing latched, position (1,0,0) gives force (-700,0,0). |
| `Driver.RunTicks` | src/joystickfeedback3.cpp:225-291 | Over any tick stream, each successful cycle contributes exactly one Published then one ForceSet event. A failed cycle contributes nothing. |
| `Driver.ControlLoop` | src/joystickfeedback3.cpp:209-295 | The imperative loop (flags, newHome, prevPos as mutable locals) ends in exactly the state and trace of `RunTicks`. |
| `Driver.FailedTickInvisible` | src/joystickfeedback3.cpp:225-292 | Removing a failed IO cycle anywhere changes neither the final state (flags, home, prevPos) nor the output. |
| `Driver.FailedTicksIdle` | src/joystickfeedback3.cpp:225-292 | A stream of failed cycles leaves the state unchanged and publishes and writes nothing. |
| `Driver.RunTicksAppend` | src/joystickfeedback3.cpp:209-295 | Running two tick streams one after the other ends in the same state as running their concatenation: the loop carries only the flags, home and prevPos. |
| `Driver.FreeTicksKeepHome` | src/joystickfeedback3.cpp:264-274 | With no flag latched, any run of free or failed ticks leaves home where it was and latches nothing. |
| `Driver.ReleaseRezeros` | src/joystickfeedback3.cpp:250-279 | With clutch not latched, hold coag and then release: home is the position at release and stays there over any later run of free ticks. The next free tick is force-free exactly when it is at that position. |
| `Driver.ClutchLatchedRezerosTwice` | src/joystickfeedback3.cpp:265-274 | With clutch already latched, the same gesture leaves clutch latched after the release, so the next free tick is a second release edge. It re-zeros home at its own position and clears both flags. |
| `Node.DefaultStartRezerosTwice` | src/joystickfeedback3.cpp:191-192 | From the default start-up flags (both true), a coag hold and release is followed by that second re-zero on the next free tick. |
| `Bringup.LoadFirmware` | src/joystickfeedback3.cpp:80-92 | The retry loop makes 1 to 20 attempts in order and stops at the first success. It is loaded iff the last attempt succeeded; if not loaded, all 20 failed. |
| `Bringup.LoadRunSucceedsIffSomeAttemptDoes` | src/joystickfeedback3.cpp:80-92 | The retry loop succeeds iff one of the first 20 attempts succeeds. |
| `Bringup.FirstUnhomed` | src/joystickfeedback3.cpp:123-133 | Gives the index of the first successful "not homed" cycle (or the stream length). No earlier cycle is one. |
| `Bringup.HomingLoop` | src/joystickfeedback3.cpp:116-143 | The loop exits only at the first successful homed cycle after a successful not-homed one. Otherwise it consumes the whole stream. RED is signalled once, at the first not-homed cycle. BLUE is signalled once, at the exit. |
| `Bringup.HomedFromStartNeverExits` | src/joystickfeedback3.cpp:121-143 | If no cycle ever reports "not homed", the loop never exits and sets no LED. |
| `Bringup.FailedCycleChangesNothing` | src/joystickfeedback3.cpp:123 | A failed cycle is neither the exit nor the start of homing. |
| `Bringup.ExitNeedsUnhomedThenHomed` | src/joystickfeedback3.cpp:124-141 | An exit means an earlier successful not-homed cycle and a successful homed last cycle. The LED trace is then exactly RED then BLUE. |
| `Bringup.InitEvents` | src/joystickfeedback3.cpp:107-113 | Bring-up emits nothing when open or firmware fails. Otherwise it sets homing mode and raw motor forces (0,0,0) through the firmware, then the homing LEDs. It never publishes or closes. |
| `Bringup.InitFalcon` | src/joystickfeedback3.cpp:45-151 | Open failure gives DeviceNotFound with no load attempt. Resident firmware gives no attempt; otherwise the retry loop runs. Init fails unless loading worked and the device reports firmware. The branch at line 95 is proved unreachable. Otherwise the homing loop runs on the stream after one priming cycle, and one more cycle follows a successful exit. |
| `Node.RunNode` | src/joystickfeedback3.cpp:179-299 | The control loop, its output and the close (line 296) happen iff init returned true (line 196). The loop runs from the parameter flags and the given home/prevPos over the cycles init left. |

## Left out

- ROS publish/subscribe, `ros::spinOnce`, loop-rate sleeping and parameter reading. These are transport plumbing. Publishing is an `Event`, and the parameters are inputs (`NodeParams`).
- The libnifalcon device, firmware, grip and kinematics. These are foreign calls. Their answers are inputs: `BringUp`, and the `Report` stream. The firmware image and checksum flag are not modelled.
- Unbounded waiting. The homing `while(!stop)` loop and `while(node.ok())` run over a finite stream. When the stream runs out during homing, the result is `StillHoming`; the real node would keep waiting. The control loop ends when the stream ends, which stands for `node.ok()` turning false.
- `CurPoseCallback`, the wall check on turtle poses. It only logs and does not take part in control.
- Debug printing (lines 283-289) and all console output. The `debug` parameter is kept but has no effect.
- `prevHome` (line 291). It is assigned but never read.
- The homing loop's `tryLoad` counter. It only feeds a bound that is commented out.
- The homing loop's `homing_reset` flag. It is set on exit but never read.
- The one-off `usleep(100000)` before the homing loop (line 119). Timing is not modelled.
- IEEE double/float rounding and finiteness of forces. The arithmetic is over `real`.
- The uninitialised values of the loop-scoped `prevPos`/`newHome`. Reading them is undefined behaviour. The model uses explicit state instead.
- `wall_warning/src/hit_wall.cpp` and `wall_warning/src/hit_wall2.cpp`. They are ROS plumbing only.
