/**
 * The node's entry point: bring the device up, and only when that succeeds
 * run the control loop over the remaining IO cycles and close the device.
 */
module Node {
  import opened Device
  import opened ForceController
  import opened Driver
  import opened Bringup

  /**
   * Start-up parameters: the device index (it decides which device `open`
   * answers for), the debug flag (printing only) and the initial values of
   * the two latched hold flags.
   */
  datatype NodeParams = NodeParams(falconNumber: int, debug: bool, clutchPressed: bool, coagPressed: bool)

  const DefaultParams: NodeParams := NodeParams(0, false, true, true)

  /** The state the control loop starts from; the positions are parameters of the model. */
  function InitialState(p: NodeParams, home0: Vec3, prev0: Vec3): ControlState
  {
    ControlState(p.coagPressed, p.clutchPressed, home0, prev0)
  }

  /**
   * The whole run over a finite stream of IO cycles: bring-up, then (only
   * when it is Ready) the control loop on the cycles it left, then close.
   */
  method RunNode(p: NodeParams, b: BringUp, cycles: seq<Report>, home0: Vec3, prev0: Vec3)
    returns (o: InitOutcome, events: seq<Event>)
    ensures InitRun(b, cycles, o) && o.used <= |cycles|
    ensures o.result != Ready ==> events == InitEvents(o)
    ensures o.result == Ready ==>
      events == InitEvents(o) + RunTicks(InitialState(p, home0, prev0), cycles[o.used..]).events + [Closed]
    // the loop, its output and the close happen only after a successful init
    ensures Closed in events <==> o.result == Ready
    ensures (exists e :: e in events && e.Published?) ==> o.result == Ready
  {
    o := InitFalcon(b, cycles);
    events := InitEvents(o);
    if o.result == Ready {
      var final, loopEvents := ControlLoop(InitialState(p, home0, prev0), cycles[o.used..]);
      events := events + loopEvents + [Closed];
    }
  }

  /**
   * With the default start-up flags (clutch and coag both latched), a coag
   * hold and release is followed by a second re-zero on the next free tick.
   */
  lemma DefaultStartRezerosTwice(home0: Vec3, prev0: Vec3, hold: Report, release: Report, next: Report)
    requires hold.ioOk && hold.buttons == CoagButtons
    requires release.ioOk && !IsHold(release.buttons)
    requires next.ioOk && !IsHold(next.buttons)
    ensures var r := RunTicks(InitialState(DefaultParams, home0, prev0), [hold, release, next]).state;
      r.newHome == next.pos && !r.coagPressed && !r.clutchPressed
  {
    ClutchLatchedRezerosTwice(InitialState(DefaultParams, home0, prev0), hold, release, next);
  }
}
