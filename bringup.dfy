/**
 * Device bring-up: open the device, make sure firmware is resident (at most
 * 20 load attempts), then wait for the operator to home the grip, with the
 * LED turning red when homing is needed and blue when it is done.
 */
module Bringup {
  import opened Device

  const MaxLoadAttempts: nat := 20

  /**
   * The answers the device gives during bring-up: whether it opens, whether
   * firmware is resident before loading, the outcome of load attempt i, and
   * whether it reports firmware resident at the final check.
   */
  datatype BringUp = BringUp(opens: bool, firmwareResident: bool, tryLoad: nat -> bool, residentAtCheck: bool)

  /**
   * The contract of the retry loop: attempts are made in order, the loop stops
   * at the first success, and gives up after `MaxLoadAttempts` failures.
   */
  predicate LoadRun(tryLoad: nat -> bool, loaded: bool, attempts: nat)
  {
    && 1 <= attempts <= MaxLoadAttempts
    && (forall j :: 0 <= j < attempts - 1 ==> !tryLoad(j))
    && (loaded <==> tryLoad(attempts - 1))
    && (!loaded ==> attempts == MaxLoadAttempts)
  }

  /** The firmware retry loop. */
  method LoadFirmware(tryLoad: nat -> bool) returns (loaded: bool, attempts: nat)
    ensures LoadRun(tryLoad, loaded, attempts)
  {
    loaded, attempts := false, 0;
    for i := 0 to MaxLoadAttempts
      invariant attempts == i && !loaded
      invariant forall j :: 0 <= j < i ==> !tryLoad(j)
    {
      attempts := attempts + 1;
      if tryLoad(i) {
        loaded := true;
        break;
      }
    }
  }

  /** The retry loop succeeds exactly when one of the first 20 attempts would. */
  lemma LoadRunSucceedsIffSomeAttemptDoes(tryLoad: nat -> bool, loaded: bool, attempts: nat)
    requires LoadRun(tryLoad, loaded, attempts)
    ensures loaded <==> exists i :: 0 <= i < MaxLoadAttempts && tryLoad(i)
  {
  }

  /** The first cycle (index) that succeeds and reports "not homed", or |cycles|. */
  function FirstUnhomed(cycles: seq<Report>): (k: nat)
    ensures k <= |cycles|
    ensures forall j :: 0 <= j < k ==> !ReportsUnhomed(cycles[j])
    ensures k < |cycles| ==> ReportsUnhomed(cycles[k])
    decreases |cycles|
  {
    if cycles == [] then 0
    else if ReportsUnhomed(cycles[0]) then 0
    else 1 + FirstUnhomed(cycles[1..])
  }

  /** The homing loop stops at cycle i: homed, after some earlier "not homed". */
  predicate ExitsAt(cycles: seq<Report>, i: nat)
  {
    i < |cycles| && ReportsHomed(cycles[i]) && FirstUnhomed(cycles) < i
  }

  /** An LED colour set during homing, with the index of the cycle that set it. */
  datatype Signal = Signal(cycle: nat, led: Led)

  /**
   * The contract of the homing loop over a finite stream of cycles: `homed`
   * when it stopped at the first exit cycle (`used` cycles consumed), else it
   * consumed the whole stream and no cycle is an exit; red is signalled at the
   * first "not homed" cycle seen, blue at the exit.
   */
  ghost predicate HomingRun(cycles: seq<Report>, homed: bool, used: nat, signals: seq<Signal>)
  {
    && used <= |cycles|
    && (homed ==> 0 < used && ExitsAt(cycles, used - 1))
    && (!homed ==> used == |cycles|)
    && (forall i :: 0 <= i < |cycles| && ExitsAt(cycles, i) ==> homed && used - 1 <= i)
    && signals ==
         (if FirstUnhomed(cycles) < used then [Signal(FirstUnhomed(cycles), RedLed)] else []) +
         (if homed then [Signal(used - 1, BlueLed)] else [])
  }

  /** The homing loop: failed cycles are skipped, and only red-then-homed stops it. */
  method HomingLoop(cycles: seq<Report>) returns (homed: bool, used: nat, signals: seq<Signal>)
    ensures HomingRun(cycles, homed, used, signals)
  {
    var stop, homing := false, false;
    used, signals := 0, [];
    while !stop && used < |cycles|
      invariant used <= |cycles|
      invariant homing == (FirstUnhomed(cycles) < used)
      invariant stop ==> 0 < used && ExitsAt(cycles, used - 1)
      invariant forall i :: 0 <= i < used && ExitsAt(cycles, i) ==> stop && i == used - 1
      invariant signals ==
        (if homing then [Signal(FirstUnhomed(cycles), RedLed)] else []) +
        (if stop then [Signal(used - 1, BlueLed)] else [])
    {
      var c := cycles[used];
      used := used + 1;
      if !c.ioOk {
        continue;
      }
      if !c.homed {
        if !homing {
          signals := signals + [Signal(used - 1, RedLed)];
        }
        homing := true;
      }
      if homing && c.homed {
        signals := signals + [Signal(used - 1, BlueLed)];
        stop := true;
      }
    }
    homed := stop;
  }

  /** A device that never reports "not homed" keeps the loop waiting, with no LED change. */
  lemma HomedFromStartNeverExits(cycles: seq<Report>, homed: bool, used: nat, signals: seq<Signal>)
    requires forall i :: 0 <= i < |cycles| ==> !ReportsUnhomed(cycles[i])
    requires HomingRun(cycles, homed, used, signals)
    ensures !homed && used == |cycles| && signals == []
  {
  }

  /** A failed cycle neither starts homing nor ends it. */
  lemma FailedCycleChangesNothing(cycles: seq<Report>, k: nat)
    requires k < |cycles| && !cycles[k].ioOk
    ensures !ExitsAt(cycles, k)
    ensures FirstUnhomed(cycles) < k + 1 <==> FirstUnhomed(cycles) < k
  {
  }

  /** The loop stops only after a successful "not homed" and then a successful "homed". */
  lemma ExitNeedsUnhomedThenHomed(cycles: seq<Report>, homed: bool, used: nat, signals: seq<Signal>)
    requires HomingRun(cycles, homed, used, signals)
    requires homed
    ensures exists j :: 0 <= j < used - 1 && ReportsUnhomed(cycles[j])
    ensures ReportsHomed(cycles[used - 1])
    ensures signals == [Signal(FirstUnhomed(cycles), RedLed), Signal(used - 1, BlueLed)]
  {
  }

  datatype InitResult = DeviceNotFound | FirmwareLoadFailed | StillHoming | Ready

  /**
   * What bring-up did: its result, the firmware flag, the load attempts made,
   * the cycles the homing loop consumed, its LED signals, and the cycles
   * consumed in all (including the two extra IO cycles around the loop).
   */
  datatype InitOutcome = InitOutcome(
    result: InitResult, firmwareLoaded: bool, loadAttempts: nat,
    homingCycles: nat, signals: seq<Signal>, used: nat)

  function LedEvents(signals: seq<Signal>): (es: seq<Event>)
    ensures |es| == |signals|
    ensures forall i :: 0 <= i < |es| ==> es[i] == LedSet(signals[i].led)
  {
    if signals == [] then [] else [LedSet(signals[0].led)] + LedEvents(signals[1..])
  }

  /** The device-facing events of bring-up, once past the firmware check. */
  function InitEvents(o: InitOutcome): (es: seq<Event>)
    ensures o.result == DeviceNotFound || o.result == FirmwareLoadFailed ==> es == []
    ensures forall e :: e in es ==> !e.Published? && !e.Closed?
  {
    if o.result == DeviceNotFound || o.result == FirmwareLoadFailed then []
    else [HomingModeOn, MotorForcesSet(0, 0, 0)] + LedEvents(o.signals)
  }

  /** One IO cycle (line 114) is consumed before homing when the stream has one. */
  function Primed(cycles: seq<Report>): nat
  {
    if cycles == [] then 0 else 1
  }

  /** The contract of bring-up. */
  ghost predicate InitRun(b: BringUp, cycles: seq<Report>, o: InitOutcome)
  {
    && (o.result == DeviceNotFound <==> !b.opens)
    && (!b.opens ==> o.loadAttempts == 0 && o.used == 0)
    && (b.opens && b.firmwareResident ==> o.firmwareLoaded && o.loadAttempts == 0)
    && (b.opens && !b.firmwareResident ==> LoadRun(b.tryLoad, o.firmwareLoaded, o.loadAttempts))
    && (o.result == FirmwareLoadFailed <==> b.opens && !(o.firmwareLoaded && b.residentAtCheck))
    && (o.result == FirmwareLoadFailed ==> o.used == 0)
    && (o.result == StillHoming || o.result == Ready ==>
          && HomingRun(cycles[Primed(cycles)..], o.result == Ready, o.homingCycles, o.signals)
          && o.used == (if o.result == Ready && Primed(cycles) + o.homingCycles < |cycles|
                        then Primed(cycles) + o.homingCycles + 1
                        else Primed(cycles) + o.homingCycles))
  }

  /** Open, firmware, homing; true (Ready) only when all three succeed. */
  method InitFalcon(b: BringUp, cycles: seq<Report>) returns (o: InitOutcome)
    ensures InitRun(b, cycles, o)
    ensures o.used <= |cycles|
  {
    if !b.opens {
      return InitOutcome(DeviceNotFound, false, 0, 0, [], 0);
    }
    var firmwareLoaded := b.firmwareResident;
    var attempts := 0;
    if !firmwareLoaded {
      firmwareLoaded, attempts := LoadFirmware(b.tryLoad);
    } else if !firmwareLoaded {
      // the guard contradicts the enclosing else: this branch cannot run
      assert false;
    }
    if !firmwareLoaded || !b.residentAtCheck {
      return InitOutcome(FirmwareLoadFailed, firmwareLoaded, attempts, 0, [], 0);
    }
    var used := Primed(cycles);
    var homed, homingCycles, signals := HomingLoop(cycles[used..]);
    used := used + homingCycles;
    if !homed {
      return InitOutcome(StillHoming, true, attempts, homingCycles, signals, used);
    }
    if used < |cycles| {
      used := used + 1;
    }
    return InitOutcome(Ready, true, attempts, homingCycles, signals, used);
  }
}
