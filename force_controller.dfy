/**
 * The per-tick mode and force rule of the joystick node: the button value
 * selects a hold mode (coag on 4, clutch on 2) with a fixed push-back force,
 * or the free mode with a PD law towards the reference position `newHome`.
 * Releasing a hold re-zeros the reference at the current position.
 */
module ForceController {
  import opened Device

  const KpGain: real := -200.0
  const KdGain: real := -500.0

  /** Fixed force while a hold button is down: pushes the grip back along z. */
  const HoldForce: Vec3 := Vec3(0.0, 0.0, 3.0)

  const CoagButtons: int := 4
  const ClutchButtons: int := 2

  predicate IsHold(buttons: int)
  {
    buttons == CoagButtons || buttons == ClutchButtons
  }

  function AxisForce(p: real, home: real, prev: real): real
  {
    (p - home) * KpGain + (p - prev) * KdGain
  }

  /**
   * The PD law on every axis. The spring term pulls towards `home`, the
   * damping term opposes the motion since `prev`.
   */
  function PdForce(pos: Vec3, home: Vec3, prev: Vec3): (f: Vec3)
    // at rest on the reference: no force at all
    ensures pos == home && pos == prev ==> f == Origin
    // not moving: a restoring spring on each axis
    ensures pos == prev ==>
      (pos.x > home.x ==> f.x < 0.0) && (pos.x < home.x ==> f.x > 0.0) &&
      (pos.y > home.y ==> f.y < 0.0) && (pos.y < home.y ==> f.y > 0.0) &&
      (pos.z > home.z ==> f.z < 0.0) && (pos.z < home.z ==> f.z > 0.0)
    // on the reference: pure damping, against the velocity
    ensures pos == home ==> f == Scale(KdGain, Sub(pos, prev))
  {
    Vec3(AxisForce(pos.x, home.x, prev.x),
         AxisForce(pos.y, home.y, prev.y),
         AxisForce(pos.z, home.z, prev.z))
  }

  /**
   * State the node keeps across ticks: the two latched "was pressed" flags,
   * the reference position and the previous position.
   */
  datatype ControlState = ControlState(coagPressed: bool, clutchPressed: bool, newHome: Vec3, prevPos: Vec3)

  datatype TickResult = TickResult(state: ControlState, force: Vec3)

  /** True when a free tick in state `s` is the release edge of a hold. */
  predicate IsRelease(s: ControlState, buttons: int)
  {
    !IsHold(buttons) && (s.coagPressed || s.clutchPressed)
  }

  /** One successful tick: mode selection, edge detection, force, then prevPos := pos. */
  function ControlTick(s: ControlState, buttons: int, pos: Vec3): (r: TickResult)
    ensures r.state.prevPos == pos
    // hold: the fixed force, whatever the positions; flags only ever set, home kept
    ensures IsHold(buttons) ==>
      && r.force == HoldForce
      && r.state.newHome == s.newHome
      && r.state.coagPressed == (s.coagPressed || buttons == CoagButtons)
      && r.state.clutchPressed == (s.clutchPressed || buttons == ClutchButtons)
    // free: the PD law towards the (possibly re-zeroed) reference
    ensures !IsHold(buttons) ==> r.force == PdForce(pos, r.state.newHome, s.prevPos)
    // release edge: coag is cleared first, clutch only when coag was not set
    ensures IsRelease(s, buttons) ==>
      && r.state.newHome == pos
      && !r.state.coagPressed
      && r.state.clutchPressed == (s.coagPressed && s.clutchPressed)
    // free without a latched flag: nothing but prevPos changes
    ensures !IsHold(buttons) && !IsRelease(s, buttons) ==> r.state == s.(prevPos := pos)
  {
    if IsHold(buttons) then
      var s' :=
        if buttons == CoagButtons && !s.coagPressed then s.(coagPressed := true)
        else if buttons == ClutchButtons && !s.clutchPressed then s.(clutchPressed := true)
        else s;
      TickResult(s'.(prevPos := pos), HoldForce)
    else
      var s' :=
        if s.coagPressed then s.(coagPressed := false, newHome := pos)
        else if s.clutchPressed then s.(clutchPressed := false, newHome := pos)
        else s;
      TickResult(s'.(prevPos := pos), PdForce(pos, s'.newHome, s.prevPos))
  }

  /** A hold tick's force does not depend on the state or the position. */
  lemma HoldForceIndependent(s1: ControlState, s2: ControlState, buttons: int, p1: Vec3, p2: Vec3)
    requires IsHold(buttons)
    ensures ControlTick(s1, buttons, p1).force == ControlTick(s2, buttons, p2).force == HoldForce
  {
  }

  /** A hold tick never clears a flag and never moves the reference. */
  lemma HoldKeepsFlagsAndHome(s: ControlState, buttons: int, pos: Vec3)
    requires IsHold(buttons)
    ensures var r := ControlTick(s, buttons, pos).state;
      (s.coagPressed ==> r.coagPressed) && (s.clutchPressed ==> r.clutchPressed) &&
      (r.coagPressed != s.coagPressed ==> buttons == CoagButtons) &&
      (r.clutchPressed != s.clutchPressed ==> buttons == ClutchButtons) &&
      r.newHome == s.newHome
  {
  }

  /** The reference moves only on a release edge, and then to the current position. */
  lemma HomeMovesOnlyOnRelease(s: ControlState, buttons: int, pos: Vec3)
    ensures var r := ControlTick(s, buttons, pos).state;
      r.newHome != s.newHome ==> IsRelease(s, buttons) && r.newHome == pos
  {
  }

  /** At most one flag is cleared per tick. */
  lemma AtMostOneFlagCleared(s: ControlState, buttons: int, pos: Vec3)
    ensures var r := ControlTick(s, buttons, pos).state;
      !((s.coagPressed && !r.coagPressed) && (s.clutchPressed && !r.clutchPressed))
  {
  }

  /** On a release tick the spring term vanishes: only damping remains. */
  lemma ReleaseForceIsDamping(s: ControlState, buttons: int, pos: Vec3)
    requires IsRelease(s, buttons)
    ensures ControlTick(s, buttons, pos).force == Scale(KdGain, Sub(pos, s.prevPos))
  {
  }

  /** A free tick at rest on the reference yields no force. */
  lemma RestingFreeTickIsForceFree(s: ControlState, buttons: int, pos: Vec3)
    requires !IsHold(buttons) && pos == s.newHome && pos == s.prevPos
    ensures ControlTick(s, buttons, pos).force == Origin
  {
  }

  /** One unit of displacement and of motion along x, nothing latched: -200 - 500 on x. */
  lemma UnitDisplacementForce(buttons: int)
    requires !IsHold(buttons)
    ensures ControlTick(ControlState(false, false, Origin, Origin), buttons, Vec3(1.0, 0.0, 0.0)).force
            == Vec3(-700.0, 0.0, 0.0)
  {
  }
}
