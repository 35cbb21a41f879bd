/**
 * The stochastic decisions of the simulation, each a function of uniform
 * samples in [0, 1). The samples themselves are injected by the caller, one
 * per call of the random source, so that a run is a function of its draws.
 */
module RandomModel {
  import opened Drivers

  /** One value of the uniform random source. */
  type Sample = r: real | 0.0 <= r < 1.0 witness 0.0

  const NorthCarProbability: real := 0.05
  const EastCarProbability: real := 0.05
  const SouthCarProbability: real := 0.05
  const WestCarProbability: real := 0.05

  const TurnProbability: real := 0.33
  const LeftTurnProbability: real := 0.5
  const HumanProbability: real := 0.0

  const FenderbenderProbabilityHuman: real := 0.02
  const FenderbenderProbabilitySdc: real := 0.01
  const FatalProbabilityHuman: real := 0.002
  const FatalProbabilitySdc: real := 0.001

  function ArrivalProbability(d: Direction): real
  {
    match d
    case North => NorthCarProbability
    case East => EastCarProbability
    case South => SouthCarProbability
    case West => WestCarProbability
  }

  /** The arrival trial of one direction succeeds on this sample. */
  predicate ArrivalTrial(d: Direction, r: Sample)
  {
    r < ArrivalProbability(d)
  }

  datatype Maneuver = Straight | LeftTurn | RightTurn

  /**
   * Turn selection: the first sample decides whether the vehicle turns; only
   * when it does is a second sample used, to choose left over right.
   */
  function ChooseManeuver(turnSample: Sample, leftSample: Sample): Maneuver
  {
    if turnSample < TurnProbability then
      (if leftSample < LeftTurnProbability then LeftTurn else RightTurn)
    else
      Straight
  }

  /**
   * The fixed turn table: where a vehicle from `origin` leaves the
   * intersection for each manoeuvre. It never leaves the way it came, and it
   * reaches the opposite side exactly when it goes straight.
   */
  function Destination(origin: Direction, m: Maneuver): (to: Direction)
    ensures to != origin
    ensures to == Opposite(origin) <==> m == Straight
  {
    match (origin, m)
    case (North, LeftTurn) => East
    case (North, RightTurn) => West
    case (North, Straight) => South
    case (East, LeftTurn) => South
    case (East, RightTurn) => North
    case (East, Straight) => West
    case (South, LeftTurn) => West
    case (South, RightTurn) => East
    case (South, Straight) => North
    case (West, LeftTurn) => North
    case (West, RightTurn) => South
    case (West, Straight) => East
  }

  /** Every other direction is reached by exactly one manoeuvre. */
  lemma DestinationIsOneToOne(origin: Direction, m1: Maneuver, m2: Maneuver, to: Direction)
    ensures Destination(origin, m1) == Destination(origin, m2) ==> m1 == m2
    ensures to != origin ==> exists m :: Destination(origin, m) == to
  {
    if to != origin {
      assert Destination(origin, LeftTurn) == to || Destination(origin, RightTurn) == to
        || Destination(origin, Straight) == to;
    }
  }

  /** Driver-type selection: human with the configured probability. */
  predicate ChooseIsHuman(r: Sample)
  {
    r < HumanProbability
  }

  function FatalProbability(isHuman: bool): real
  {
    if isHuman then FatalProbabilityHuman else FatalProbabilitySdc
  }

  function FenderbenderProbability(isHuman: bool): real
  {
    if isHuman then FenderbenderProbabilityHuman else FenderbenderProbabilitySdc
  }

  /**
   * Crash outcome of one crossing, as the clock penalty it causes: a fatal
   * crash below the driver type's fatal threshold, a fender-bender below its
   * fender-bender threshold, and no crash (no penalty) otherwise.
   */
  function CrashPenalty(r: Sample, isHuman: bool): (p: int)
    ensures p == 0 || p == FenderbenderTime || p == FatalTime
    ensures p == FatalTime <==> r < FatalProbability(isHuman)
    ensures p == FenderbenderTime <==> FatalProbability(isHuman) <= r < FenderbenderProbability(isHuman)
    ensures p == 0 <==> FenderbenderProbability(isHuman) <= r
  {
    if r < FatalProbabilitySdc && !isHuman then FatalTime
    else if r < FatalProbabilityHuman && isHuman then FatalTime
    else if r < FenderbenderProbabilitySdc && !isHuman then FenderbenderTime
    else if r < FenderbenderProbabilityHuman && isHuman then FenderbenderTime
    else 0
  }

  /** On the same sample, a self-driving car never fares worse than a human driver. */
  lemma SelfDrivingNoWorse(r: Sample)
    ensures CrashPenalty(r, false) <= CrashPenalty(r, true)
  {
  }
}
