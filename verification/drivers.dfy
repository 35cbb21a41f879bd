/**
 * The record kept for one vehicle at the all-way-stop intersection, the
 * compass directions it travels between, and the timing constants.
 *
 * Time is counted in half-seconds: the simulation advances by 0.5 s per
 * tick and every timing constant is a whole number of seconds, so the
 * clock and every countdown are exact multiples of one half-second unit.
 */
module Drivers {

  /** One tick, 0.5 s. */
  const TimeStep: int := 1
  /** Countdown from spawn point to stop line, 10 s. */
  const ArrivalTime: int := 20
  const HumanClearTime: int := 6      // 3 s
  const SdcClearTime: int := 4        // 2 s
  const HumanTurningTime: int := 10   // 5 s
  const SdcTurningTime: int := 8      // 4 s
  const HumanMinStopTime: int := 4    // 2 s
  const SdcMinStopTime: int := 2      // 1 s
  /** Clock penalties added when a crossing ends in a crash. */
  const FenderbenderTime: int := 40   // 20 s
  const FatalTime: int := 240         // 120 s

  datatype Direction = North | East | South | West

  /** Position of a direction in the fixed scan order North, East, South, West. */
  function ScanIndex(d: Direction): (i: nat)
    ensures i < 4
  {
    match d
    case North => 0
    case East => 1
    case South => 2
    case West => 3
  }

  /** The direction a vehicle going straight through leaves by. */
  function Opposite(d: Direction): Direction
  {
    match d
    case North => South
    case East => West
    case South => North
    case West => East
  }

  /** Lifecycle state: approaching the stop line, stopped at it, crossing. */
  datatype Event = Arrival | Stop | Clear

  /**
   * One vehicle. `busyTime` is the countdown to its next transition and may
   * go negative while the driver is overdue; `elapsedTime` and `crashed` are
   * filled in when it leaves the intersection.
   */
  datatype Driver = Driver(
    name: nat,
    isHuman: bool,
    event: Event,
    startTime: int,
    origin: Direction,
    destination: Direction,
    elapsedTime: int,
    busyTime: int,
    crashed: bool)

  /** A freshly created driver, as the record's constructor sets it up. */
  function NewDriver(name: nat, time: int, arrivalTime: int, origin: Direction, destination: Direction, isHuman: bool): Driver
  {
    Driver(name, isHuman, Arrival, time, origin, destination, 0, arrivalTime, false)
  }

  /** Time a stopped driver must wait at the stop line. */
  function MinStopTime(isHuman: bool): int
  {
    if isHuman then HumanMinStopTime else SdcMinStopTime
  }

  /**
   * Time a driver needs to cross: the clear time when it goes straight
   * through to the opposite side, the longer turning time otherwise.
   */
  function CrossingTime(v: Driver): int
  {
    if v.destination == Opposite(v.origin) then
      (if v.isHuman then HumanClearTime else SdcClearTime)
    else
      (if v.isHuman then HumanTurningTime else SdcTurningTime)
  }

  /**
   * For drivers of the same type, going straight through is quicker than
   * turning; a self-driving car is quicker than a human driver on the same
   * manoeuvre and waits less at the stop line.
   */
  lemma CrossingTimeOrder(v: Driver, w: Driver)
    requires v.isHuman == w.isHuman
    requires v.destination == Opposite(v.origin) && w.destination != Opposite(w.origin)
    ensures 0 < CrossingTime(v) < CrossingTime(w)
    ensures CrossingTime(v.(isHuman := false)) < CrossingTime(v.(isHuman := true))
    ensures CrossingTime(w.(isHuman := false)) < CrossingTime(w.(isHuman := true))
    ensures 0 < MinStopTime(false) < MinStopTime(true)
  {
  }
}
