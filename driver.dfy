/**
 * The node's control loop: on every tick one IO cycle; a failed cycle does
 * nothing, a successful one publishes (buttons, position), sets the force
 * chosen by the per-tick rule and remembers the position.
 */
module Driver {
  import opened Device
  import opened ForceController

  /** The retained control state and everything published or written so far. */
  datatype Trace = Trace(state: ControlState, events: seq<Event>)

  /** One tick of the loop, gated on the IO cycle. */
  function Step(t: Trace, c: Report): Trace
  {
    if !c.ioOk then t
    else
      var r := ControlTick(t.state, c.buttons, c.pos);
      Trace(r.state, t.events + [Published(c.buttons, c.pos), ForceSet(r.force)])
  }

  /** Number of successful IO cycles in `ticks`. */
  function OkCount(ticks: seq<Report>): nat
    decreases |ticks|
  {
    if ticks == [] then 0
    else OkCount(ticks[..|ticks| - 1]) + (if ticks[|ticks| - 1].ioOk then 1 else 0)
  }

  /** Every successful tick contributes a Published event followed by a ForceSet event. */
  predicate Alternates(events: seq<Event>)
  {
    forall i :: 0 <= i < |events| ==>
      (events[i].Published? <==> i % 2 == 0) && (events[i].ForceSet? <==> i % 2 == 1)
  }

  /** The loop run over a finite stream of ticks, from state `s`. */
  function RunTicks(s: ControlState, ticks: seq<Report>): (t: Trace)
    ensures |t.events| == 2 * OkCount(ticks)
    ensures Alternates(t.events)
    decreases |ticks|
  {
    if ticks == [] then Trace(s, [])
    else Step(RunTicks(s, ticks[..|ticks| - 1]), ticks[|ticks| - 1])
  }

  /** The loop as the node runs it, on explicit mutable state. */
  method ControlLoop(s0: ControlState, ticks: seq<Report>) returns (s: ControlState, events: seq<Event>)
    ensures Trace(s, events) == RunTicks(s0, ticks)
  {
    var coagPressed, clutchPressed := s0.coagPressed, s0.clutchPressed;
    var newHome, prevPos := s0.newHome, s0.prevPos;
    events := [];
    var i := 0;
    while i < |ticks|
      invariant 0 <= i <= |ticks|
      invariant Trace(ControlState(coagPressed, clutchPressed, newHome, prevPos), events)
                == RunTicks(s0, ticks[..i])
    {
      assert ticks[..i + 1][..i] == ticks[..i];
      var c := ticks[i];
      if c.ioOk {
        var pos, buttons := c.pos, c.buttons;
        events := events + [Published(buttons, pos)];
        var forces: Vec3;
        if buttons == CoagButtons || buttons == ClutchButtons {
          if buttons == CoagButtons && !coagPressed {
            coagPressed := true;
          } else if buttons == ClutchButtons && !clutchPressed {
            clutchPressed := true;
          }
          forces := HoldForce;
        } else {
          if coagPressed {
            coagPressed := false;
            newHome := pos;
          } else if clutchPressed {
            clutchPressed := false;
            newHome := pos;
          }
          forces := PdForce(pos, newHome, prevPos);
        }
        events := events + [ForceSet(forces)];
        prevPos := pos;
      }
      i := i + 1;
    }
    assert ticks[..i] == ticks;
    s := ControlState(coagPressed, clutchPressed, newHome, prevPos);
  }

  /** A failed IO cycle is invisible: it changes neither the state nor the output. */
  lemma {:induction false} FailedTickInvisible(s: ControlState, a: seq<Report>, c: Report, b: seq<Report>)
    requires !c.ioOk
    ensures RunTicks(s, a + [c] + b) == RunTicks(s, a + b)
    decreases |b|
  {
    if b == [] {
      assert a + [c] + b == a + [c];
      assert (a + [c])[..|a|] == a;
      assert a + b == a;
    } else {
      var b' := b[..|b| - 1];
      var last := b[|b| - 1];
      FailedTickInvisible(s, a, c, b');
      assert (a + [c] + b)[..|a + [c] + b| - 1] == a + [c] + b';
      assert (a + b)[..|a + b| - 1] == a + b';
    }
  }

  /** A stream of failed cycles leaves the state untouched and outputs nothing. */
  lemma {:induction false} FailedTicksIdle(s: ControlState, ticks: seq<Report>)
    requires forall i :: 0 <= i < |ticks| ==> !ticks[i].ioOk
    ensures RunTicks(s, ticks) == Trace(s, [])
    decreases |ticks|
  {
    if ticks != [] {
      FailedTicksIdle(s, ticks[..|ticks| - 1]);
    }
  }

  /** Running `a` then `b` is running `b` from where `a` left the state. */
  lemma {:induction false} RunTicksAppend(s: ControlState, a: seq<Report>, b: seq<Report>)
    ensures RunTicks(s, a + b).state == RunTicks(RunTicks(s, a).state, b).state
    decreases |b|
  {
    if b == [] {
      assert a + b == a;
    } else {
      RunTicksAppend(s, a, b[..|b| - 1]);
      assert (a + b)[..|a + b| - 1] == a + b[..|b| - 1];
    }
  }

  /** Free (or failed) ticks with no flag latched never move the reference. */
  lemma {:induction false} FreeTicksKeepHome(s: ControlState, ticks: seq<Report>)
    requires !s.coagPressed && !s.clutchPressed
    requires forall i :: 0 <= i < |ticks| ==> !IsHold(ticks[i].buttons)
    ensures var r := RunTicks(s, ticks).state;
      r.newHome == s.newHome && !r.coagPressed && !r.clutchPressed
    decreases |ticks|
  {
    if ticks != [] {
      FreeTicksKeepHome(s, ticks[..|ticks| - 1]);
    }
  }

  /**
   * Hold coag, move, release, with clutch not latched: the reference is the
   * position at release and stays there over any later run of free ticks;
   * the next free tick is force-free exactly when it is at that position.
   */
  lemma ReleaseRezeros(s: ControlState, hold: Report, release: Report, next: Report, later: seq<Report>)
    requires !s.clutchPressed
    requires hold.ioOk && hold.buttons == CoagButtons
    requires release.ioOk && !IsHold(release.buttons)
    requires next.ioOk && !IsHold(next.buttons)
    requires forall i :: 0 <= i < |later| ==> !IsHold(later[i].buttons)
    ensures RunTicks(s, [hold, release] + later).state.newHome == release.pos
    ensures var after := RunTicks(s, [hold, release]).state;
      ControlTick(after, next.buttons, next.pos).force == Origin <==> next.pos == release.pos
  {
    assert [hold, release][..1] == [hold];
    assert [hold][..0] == [];
    assert RunTicks(s, [hold]) == Step(RunTicks(s, []), hold);
    var held := RunTicks(s, [hold]).state;
    assert held == ControlTick(s, hold.buttons, hold.pos).state;
    assert held.coagPressed && !held.clutchPressed;
    var after := RunTicks(s, [hold, release]).state;
    assert after == ControlTick(held, release.buttons, release.pos).state;
    assert after.newHome == release.pos && !after.coagPressed && !after.clutchPressed;
    RunTicksAppend(s, [hold, release], later);
    FreeTicksKeepHome(after, later);
  }

  /**
   * The same gesture with clutch already latched (as it is with the default
   * start-up flags): the release clears only coag, so the next free tick is a
   * second release edge and re-zeros the reference at its own position.
   */
  lemma ClutchLatchedRezerosTwice(s: ControlState, hold: Report, release: Report, next: Report)
    requires s.clutchPressed
    requires hold.ioOk && hold.buttons == CoagButtons
    requires release.ioOk && !IsHold(release.buttons)
    requires next.ioOk && !IsHold(next.buttons)
    ensures RunTicks(s, [hold, release]).state.newHome == release.pos
    ensures RunTicks(s, [hold, release]).state.clutchPressed
    ensures var r := RunTicks(s, [hold, release, next]).state;
      r.newHome == next.pos && !r.coagPressed && !r.clutchPressed
  {
    assert [hold, release, next][..2] == [hold, release];
    assert [hold, release][..1] == [hold];
    assert [hold][..0] == [];
    assert RunTicks(s, [hold]) == Step(RunTicks(s, []), hold);
    var held := RunTicks(s, [hold]).state;
    assert held == ControlTick(s, hold.buttons, hold.pos).state;
    assert held.coagPressed && held.clutchPressed;
    var after := RunTicks(s, [hold, release]).state;
    assert after == ControlTick(held, release.buttons, release.pos).state;
    assert RunTicks(s, [hold, release, next]).state == ControlTick(after, next.buttons, next.pos).state;
  }
}
