/**
 * The simulation's state as a value, the four ways a driver moves through
 * it (created, reaching the stop line, admitted into the intersection,
 * leaving it), the phases of one tick built from them, and the invariant
 * every one of them preserves. The engine's methods change this state in
 * place and are specified by these functions. Random decisions read the
 * injected source `draw`: the k-th value taken from it is draw(k), and the
 * state records how many values have been taken.
 */
module SimState {
  import opened Drivers
  import opened RandomModel
  import opened Queues

  /**
   * Everything a driver passes through, the vehicle count, the clock and
   * the number of random values taken so far.
   */
  datatype State = State(
    arrivals: Lanes,
    stops: Lanes,
    intersection: seq<Driver>,
    intersectionFree: bool,
    completed: seq<Driver>,
    crashed: seq<Driver>,
    numCars: nat,
    clock: int,
    drawn: nat)

  /** Where the simulation starts, before its first arrival pass. */
  function Initial(): State
  {
    State(EmptyLanes(), EmptyLanes(), [], true, [], [], 0, 0, 0)
  }

  /** How many places hold a driver named `x`. */
  function Held(s: State, x: nat): nat
  {
    Occ(s.completed, x) + Occ(s.crashed, x) + Occ(s.intersection, x)
      + s.arrivals.Tally(x) + s.stops.Tally(x)
  }

  /** How many drivers the state holds, wherever they are. */
  function Population(s: State): nat
  {
    |s.completed| + |s.crashed| + |s.intersection| + s.arrivals.Count() + s.stops.Count()
  }

  /**
   * At most one driver is inside the intersection, none exactly when the
   * flag says it is free, and that driver is crossing and has not crashed.
   */
  predicate SingleOccupant(s: State)
  {
    && |s.intersection| <= 1
    && (s.intersection == [] <==> s.intersectionFree)
    && forall i :: 0 <= i < |s.intersection| ==> s.intersection[i].event == Clear && !s.intersection[i].crashed
  }

  /**
   * Every queued driver waits in its own origin's lists in the matching
   * lifecycle state, at most one driver approaches per direction, and a
   * direction's stop list followed by its arrival list is in creation order.
   */
  predicate LanesInPlace(s: State)
  {
    forall d ::
      && InLane(s.arrivals.Get(d), d, Arrival)
      && InLane(s.stops.Get(d), d, Stop)
      && |s.arrivals.Get(d)| <= 1
      && ByName(s.stops.Get(d) + s.arrivals.Get(d))
  }

  /** Finished drivers sit in the list matching their crash flag. */
  predicate Outcomes(s: State)
  {
    && (forall i :: 0 <= i < |s.completed| ==> !s.completed[i].crashed)
    && (forall i :: 0 <= i < |s.crashed| ==> s.crashed[i].crashed)
  }

  /**
   * Every vehicle created is held exactly once: the names 0 .. numCars-1
   * each occur in exactly one place, no other name occurs, and the number
   * of drivers held is the number created.
   */
  ghost predicate EachOnce(s: State)
  {
    && Population(s) == s.numCars
    && forall x: nat :: Held(s, x) == if x < s.numCars then 1 else 0
  }

  ghost predicate Inv(s: State)
  {
    SingleOccupant(s) && LanesInPlace(s) && Outcomes(s) && EachOnce(s)
  }

  /**
   * ARRIVAL to STOP: the head of direction `d`'s arrival list moves to the
   * tail of the same direction's stop list, with its type's minimum stop
   * time as the new countdown.
   */
  function Arrive(s: State, d: Direction): State
    requires s.arrivals.Get(d) != []
  {
    var v := s.arrivals.Get(d)[0];
    s.(arrivals := s.arrivals.Set(d, s.arrivals.Get(d)[1..]),
       stops := s.stops.Set(d, s.stops.Get(d) + [v.(event := Stop, busyTime := MinStopTime(v.isHuman))]))
  }

  /**
   * STOP to CLEAR: the head of direction `d`'s stop list enters the
   * intersection with its crossing time, the negative countdowns left in
   * that stop list are floored at zero, and the intersection is occupied.
   */
  function Admit(s: State, d: Direction): State
    requires s.stops.Get(d) != []
  {
    var v := s.stops.Get(d)[0];
    s.(stops := s.stops.Set(d, Clamped(s.stops.Get(d)[1..])),
       intersection := s.intersection + [v.(event := Clear, busyTime := CrossingTime(v))],
       intersectionFree := false)
  }

  /**
   * CLEAR to finished: the head of the intersection leaves it. The clock
   * first takes the crash penalty, the driver's elapsed time is measured
   * against the new clock, and it is recorded as crashed when the penalty
   * is positive and as completed otherwise. The intersection is free again
   * once it is empty.
   */
  function Depart(s: State, penalty: int): State
    requires s.intersection != []
  {
    var v := s.intersection[0];
    var clock := s.clock + penalty;
    var w := v.(elapsedTime := clock - v.startTime, crashed := if penalty > 0 then true else v.crashed);
    var rest := s.intersection[1..];
    s.(clock := clock,
       crashed := if penalty > 0 then s.crashed + [w] else s.crashed,
       completed := if penalty > 0 then s.completed else s.completed + [w],
       intersection := rest,
       intersectionFree := if rest == [] then true else s.intersectionFree)
  }

  /** A new vehicle joins the tail of its origin's arrival list and is counted. */
  function Spawn(s: State, v: Driver): State
  {
    s.(arrivals := s.arrivals.Set(v.origin, s.arrivals.Get(v.origin) + [v]),
       numCars := s.numCars + 1)
  }

  /** The end of a tick: every held driver's countdown, then the clock, advance by one step. */
  function Tick(s: State): State
  {
    s.(arrivals := s.arrivals.Elapsed(), stops := s.stops.Elapsed(), intersection := Aged(s.intersection),
       clock := s.clock + TimeStep)
  }

  /** A driver as the arrival trial creates it: next name, approaching from its origin. */
  predicate Newcomer(s: State, v: Driver)
  {
    v.name == s.numCars && v.event == Arrival && !v.crashed
  }

  /** Renaming-free changes to a list keep it in creation order. */
  lemma ByNameSameNames(a: seq<Driver>, b: seq<Driver>)
    requires |a| == |b| && forall i :: 0 <= i < |a| ==> a[i].name == b[i].name
    requires ByName(a)
    ensures ByName(b)
  {
  }

  /** Every queued driver is named below the vehicle count. */
  lemma QueuedBelow(s: State, d: Direction)
    requires EachOnce(s)
    ensures forall i :: 0 <= i < |s.stops.Get(d)| ==> s.stops.Get(d)[i].name < s.numCars
  {
    forall i | 0 <= i < |s.stops.Get(d)|
      ensures s.stops.Get(d)[i].name < s.numCars
    {
      var x := s.stops.Get(d)[i].name;
      OccMember(s.stops.Get(d), i);
      s.stops.SetCounts(d, s.stops.Get(d), x);
      assert Held(s, x) >= 1;
    }
  }

  /** A change that keeps every count and the vehicle count keeps every created vehicle held exactly once. */
  lemma EachOnceByCounts(s: State, t: State)
    requires EachOnce(s) && t.numCars == s.numCars && Population(t) == Population(s)
    requires forall x: nat :: Held(t, x) == Held(s, x)
    ensures EachOnce(t)
  {
    forall x: nat
      ensures Held(t, x) == if x < t.numCars then 1 else 0
    {
      assert Held(t, x) == Held(s, x);
    }
  }

  lemma InitialInv()
    ensures Inv(Initial())
  {
  }

  /** Reaching the stop line moves a driver between two lists of the same direction: every count is kept. */
  lemma ArriveCounts(s: State, d: Direction)
    requires s.arrivals.Get(d) != []
    ensures Population(Arrive(s, d)) == Population(s)
    ensures forall x: nat :: Held(Arrive(s, d), x) == Held(s, x)
  {
    var v := s.arrivals.Get(d)[0];
    var w := v.(event := Stop, busyTime := MinStopTime(v.isHuman));
    var waiting := s.stops.Get(d);
    var rest := s.arrivals.Get(d)[1..];
    forall x: nat
      ensures Held(Arrive(s, d), x) == Held(s, x)
    {
      s.arrivals.SetCounts(d, rest, x);
      s.stops.SetCounts(d, waiting + [w], x);
      OccAppend(waiting, w, x);
      OccDropHead(s.arrivals.Get(d), x);
    }
    s.arrivals.SetCounts(d, rest, 0);
    s.stops.SetCounts(d, waiting + [w], 0);
  }

  /** Reaching the stop line keeps every list in place and in creation order, and empties the arrival list. */
  lemma ArriveLanes(s: State, d: Direction)
    requires LanesInPlace(s) && s.arrivals.Get(d) != []
    ensures LanesInPlace(Arrive(s, d))
    ensures Arrive(s, d).arrivals.Get(d) == []
  {
    var t := Arrive(s, d);
    var v := s.arrivals.Get(d)[0];
    var w := v.(event := Stop, busyTime := MinStopTime(v.isHuman));
    var waiting := s.stops.Get(d);
    assert s.arrivals.Get(d) == [v];
    forall e
      ensures InLane(t.arrivals.Get(e), e, Arrival) && InLane(t.stops.Get(e), e, Stop)
      ensures |t.arrivals.Get(e)| <= 1 && ByName(t.stops.Get(e) + t.arrivals.Get(e))
    {
      if e == d {
        assert t.stops.Get(e) + t.arrivals.Get(e) == waiting + [w];
        ByNameSameNames(waiting + [v], waiting + [w]);
      }
    }
  }

  /** Reaching the stop line preserves the invariant. */
  lemma ArriveKeepsInv(s: State, d: Direction)
    requires Inv(s) && s.arrivals.Get(d) != []
    ensures Inv(Arrive(s, d))
    ensures Arrive(s, d).arrivals.Get(d) == []
  {
    ArriveCounts(s, d);
    EachOnceByCounts(s, Arrive(s, d));
    ArriveLanes(s, d);
  }

  /**
   * The driver admitted from direction `d` was created before every driver
   * still waiting or approaching behind it: nobody overtakes within a
   * direction.
   */
  lemma AdmitFirstInLine(s: State, d: Direction)
    requires LanesInPlace(s) && s.stops.Get(d) != []
    ensures var t := Admit(s, d);
      forall i :: 0 <= i < |t.stops.Get(d) + t.arrivals.Get(d)| ==>
        s.stops.Get(d)[0].name < (t.stops.Get(d) + t.arrivals.Get(d))[i].name
  {
    var t := Admit(s, d);
    var waiting := s.stops.Get(d);
    var rest: seq<Driver> := Clamped(waiting[1..]);
    var approaching: seq<Driver> := s.arrivals.Get(d);
    assert ByName(waiting + approaching);
    assert forall i :: 0 <= i < |rest + approaching| ==>
      (rest + approaching)[i].name == (waiting + approaching)[i + 1].name;
    assert t.stops.Get(d) + t.arrivals.Get(d) == rest + approaching;
    assert (waiting + approaching)[0] == waiting[0];
  }

  /** Admission moves a driver from a stop list into the intersection: every count is kept. */
  lemma AdmitCounts(s: State, d: Direction)
    requires s.stops.Get(d) != []
    ensures Population(Admit(s, d)) == Population(s)
    ensures forall x: nat :: Held(Admit(s, d), x) == Held(s, x)
  {
    var waiting := s.stops.Get(d);
    var v := waiting[0];
    var w := v.(event := Clear, busyTime := CrossingTime(v));
    var rest: seq<Driver> := Clamped(waiting[1..]);
    forall x: nat
      ensures Held(Admit(s, d), x) == Held(s, x)
    {
      s.stops.SetCounts(d, rest, x);
      CountdownUpdatesKeepNames(waiting[1..], x);
      OccAppend(s.intersection, w, x);
      OccDropHead(waiting, x);
    }
    CountdownUpdatesKeepNames(waiting[1..], 0);
    s.stops.SetCounts(d, rest, 0);
  }

  /** Admission keeps every list in place and in creation order. */
  lemma AdmitLanes(s: State, d: Direction)
    requires LanesInPlace(s) && s.stops.Get(d) != []
    ensures LanesInPlace(Admit(s, d))
  {
    var t := Admit(s, d);
    var waiting := s.stops.Get(d);
    var rest: seq<Driver> := Clamped(waiting[1..]);
    var approaching: seq<Driver> := s.arrivals.Get(d);
    CountdownUpdatesKeepNames(waiting[1..], 0);
    CountdownUpdatesKeepLane(waiting[1..], d, Stop);
    assert forall i :: 0 <= i < |rest + approaching| ==>
      (rest + approaching)[i].name == (waiting + approaching)[i + 1].name;
    forall e
      ensures InLane(t.arrivals.Get(e), e, Arrival) && InLane(t.stops.Get(e), e, Stop)
      ensures |t.arrivals.Get(e)| <= 1 && ByName(t.stops.Get(e) + t.arrivals.Get(e))
    {
    }
  }

  /** Admission into a free intersection preserves the invariant. */
  lemma AdmitKeepsInv(s: State, d: Direction)
    requires Inv(s) && s.intersectionFree && s.stops.Get(d) != []
    ensures Inv(Admit(s, d))
  {
    assert s.intersection == [];
    assert InLane(s.stops.Get(d), d, Stop);
    AdmitCounts(s, d);
    EachOnceByCounts(s, Admit(s, d));
    AdmitLanes(s, d);
  }

  /** Leaving the intersection moves a driver to a finished list: every count is kept. */
  lemma DepartCounts(s: State, penalty: int)
    requires s.intersection != []
    ensures Population(Depart(s, penalty)) == Population(s)
    ensures forall x: nat :: Held(Depart(s, penalty), x) == Held(s, x)
  {
    var t := Depart(s, penalty);
    var v := s.intersection[0];
    var w := v.(elapsedTime := t.clock - v.startTime, crashed := if penalty > 0 then true else v.crashed);
    forall x: nat
      ensures Held(t, x) == Held(s, x)
    {
      OccAppend(s.crashed, w, x);
      OccAppend(s.completed, w, x);
      OccDropHead(s.intersection, x);
    }
  }

  /** Leaving the intersection preserves the invariant and frees it. */
  lemma DepartKeepsInv(s: State, penalty: int)
    requires Inv(s) && s.intersection != []
    ensures Inv(Depart(s, penalty))
    ensures Depart(s, penalty).intersectionFree
  {
    assert s.intersection == [s.intersection[0]];
    DepartCounts(s, penalty);
    EachOnceByCounts(s, Depart(s, penalty));
  }

  /** Creating a vehicle adds one driver, under its own name, and keeps every other count. */
  lemma SpawnCounts(s: State, v: Driver)
    ensures Population(Spawn(s, v)) == Population(s) + 1
    ensures forall x: nat :: Held(Spawn(s, v), x) == Held(s, x) + (if x == v.name then 1 else 0)
  {
    var d := v.origin;
    var q := s.arrivals.Get(d);
    forall x: nat
      ensures Held(Spawn(s, v), x) == Held(s, x) + (if x == v.name then 1 else 0)
    {
      s.arrivals.SetCounts(d, q + [v], x);
      OccAppend(q, v, x);
    }
    s.arrivals.SetCounts(d, q + [v], 0);
  }

  /**
   * A vehicle created in a direction with no approaching driver, named
   * after everyone waiting there, keeps every list in place and in creation
   * order.
   */
  lemma SpawnLanes(s: State, v: Driver)
    requires LanesInPlace(s) && s.arrivals.Get(v.origin) == []
    requires v.event == Arrival && !v.crashed
    requires forall i :: 0 <= i < |s.stops.Get(v.origin)| ==> s.stops.Get(v.origin)[i].name < v.name
    ensures LanesInPlace(Spawn(s, v))
  {
    var t := Spawn(s, v);
    var d := v.origin;
    var waiting := s.stops.Get(d);
    forall e
      ensures InLane(t.arrivals.Get(e), e, Arrival) && InLane(t.stops.Get(e), e, Stop)
      ensures |t.arrivals.Get(e)| <= 1 && ByName(t.stops.Get(e) + t.arrivals.Get(e))
    {
      if e == d {
        assert t.stops.Get(e) + t.arrivals.Get(e) == waiting + [v];
        assert s.stops.Get(e) + s.arrivals.Get(e) == waiting;
      }
    }
  }

  /** Creating a vehicle under the next name keeps every created vehicle held exactly once. */
  lemma SpawnEachOnce(s: State, v: Driver)
    requires EachOnce(s) && v.name == s.numCars
    ensures EachOnce(Spawn(s, v))
  {
    var t := Spawn(s, v);
    SpawnCounts(s, v);
    forall x: nat
      ensures Held(t, x) == if x < t.numCars then 1 else 0
    {
      assert Held(t, x) == Held(s, x) + (if x == v.name then 1 else 0);
    }
  }

  /**
   * Creating a vehicle in a direction with no approaching driver preserves
   * the invariant, whatever the number of random values taken for it.
   */
  lemma SpawnKeepsInv(s: State, v: Driver, k: nat)
    requires Inv(s) && Newcomer(s, v) && s.arrivals.Get(v.origin) == []
    ensures Inv(Spawn(s, v).(drawn := k))
  {
    QueuedBelow(s, v.origin);
    SpawnEachOnce(s, v);
    SpawnLanes(s, v);
    InvIgnoresDrawn(Spawn(s, v), k);
  }

  /** The end of a tick changes countdowns only: every count is kept. */
  lemma TickCounts(s: State)
    ensures Population(Tick(s)) == Population(s)
    ensures forall x: nat :: Held(Tick(s), x) == Held(s, x)
  {
    forall x: nat
      ensures Held(Tick(s), x) == Held(s, x)
    {
      s.arrivals.ElapsedCounts(x);
      s.stops.ElapsedCounts(x);
      CountdownUpdatesKeepNames(s.intersection, x);
    }
    s.arrivals.ElapsedCounts(0);
    s.stops.ElapsedCounts(0);
    CountdownUpdatesKeepNames(s.intersection, 0);
  }

  /** The end of a tick keeps every list in place and in creation order. */
  lemma TickLanes(s: State)
    requires LanesInPlace(s)
    ensures LanesInPlace(Tick(s))
  {
    var t := Tick(s);
    forall e
      ensures InLane(t.arrivals.Get(e), e, Arrival) && InLane(t.stops.Get(e), e, Stop)
      ensures |t.arrivals.Get(e)| <= 1 && ByName(t.stops.Get(e) + t.arrivals.Get(e))
    {
      var a := s.arrivals.Get(e);
      var q := s.stops.Get(e);
      CountdownUpdatesKeepNames(a, 0);
      CountdownUpdatesKeepNames(q, 0);
      CountdownUpdatesKeepLane(a, e, Arrival);
      CountdownUpdatesKeepLane(q, e, Stop);
      ByNameSameNames(q + a, Aged(q) + Aged(a));
    }
  }

  /** The end of a tick preserves the invariant. */
  lemma TickKeepsInv(s: State)
    requires Inv(s)
    ensures Inv(Tick(s))
  {
    CountdownUpdatesKeepNames(s.intersection, 0);
    TickCounts(s);
    EachOnceByCounts(s, Tick(s));
    TickLanes(s);
  }

  /**
   * The loop over the intersection: its driver leaves once its countdown has
   * run out, with the crash penalty of the next random value.
   */
  function ClearPhase(s: State, draw: nat -> Sample): State
  {
    if s.intersection != [] && s.intersection[0].busyTime <= 0 then
      Depart(s, CrashPenalty(draw(s.drawn), s.intersection[0].isHuman)).(drawn := s.drawn + 1)
    else
      s
  }

  /** The loop over direction `d`'s arrival list: its head reaches the stop line once its countdown has run out. */
  function ArrivalStep(s: State, d: Direction): State
  {
    if s.arrivals.Get(d) != [] && s.arrivals.Get(d)[0].busyTime <= 0 then Arrive(s, d) else s
  }

  /** The four arrival loops, in the order North, West, South, East. */
  function ArrivalPhase(s: State): State
  {
    ArrivalStep(ArrivalStep(ArrivalStep(ArrivalStep(s, North), West), South), East)
  }

  /**
   * Admission: the scan over the stop-list heads picks at most one driver,
   * who enters the intersection if it is free. The chosen driver heads its
   * origin's stop list whenever the invariant holds (AdmitPhaseKeepsInv);
   * the test that this list is not empty only keeps the function total.
   */
  function AdmitPhase(s: State): State
  {
    match ScanPrefix(s.stops, 4).driver
    case None => s
    case Some(v) => if s.intersectionFree && s.stops.Get(v.origin) != [] then Admit(s, v.origin) else s
  }

  /**
   * How many random values creating a vehicle takes from index `k`: the
   * turn takes one, and a second only when the vehicle turns; the driver
   * type takes one more.
   */
  function CreationDraws(draw: nat -> Sample, k: nat): (n: nat)
    ensures n == 2 || n == 3
  {
    if draw(k) < TurnProbability then 3 else 2
  }

  /**
   * The vehicle an arrival trial creates from direction `d`, its random
   * values starting at index `k`: named by the vehicle count, starting at
   * the clock with the arrival countdown, heading to the turn table's
   * destination.
   */
  function Created(s: State, d: Direction, draw: nat -> Sample, k: nat): (v: Driver)
    ensures Newcomer(s, v) && Fresh(s, v, d)
  {
    var turns := draw(k) < TurnProbability;
    var leftSample: Sample := if turns then draw(k + 1) else 0.0;
    var to := Destination(d, ChooseManeuver(draw(k), leftSample));
    NewDriver(s.numCars, s.clock, ArrivalTime, d, to, ChooseIsHuman(draw(k + CreationDraws(draw, k) - 1)))
  }

  /**
   * The arrival trial of direction `d`. One value is always taken; a vehicle
   * is created only if it is below the direction's probability and the
   * direction's arrival list is empty.
   */
  function Trial(s: State, d: Direction, draw: nat -> Sample): State
  {
    var k := s.drawn;
    if ArrivalTrial(d, draw(k)) && s.arrivals.Get(d) == [] then
      Spawn(s, Created(s, d, draw, k + 1)).(drawn := k + 1 + CreationDraws(draw, k + 1))
    else
      s.(drawn := k + 1)
  }

  /** The arrival generation pass: one trial per direction, North, East, South, West. */
  function GenerationPass(s: State, draw: nat -> Sample): State
  {
    Trial(Trial(Trial(Trial(s, North, draw), East, draw), South, draw), West, draw)
  }

  /**
   * The events of one tick: clearance, the arrival loops, admission, and a
   * generation pass while fewer vehicles than `totalCars` have been created.
   */
  function Events(s: State, draw: nat -> Sample, totalCars: int): State
  {
    var s1 := ClearPhase(s, draw);
    var s2 := ArrivalPhase(s1);
    var s3 := AdmitPhase(s2);
    if s3.numCars < totalCars then GenerationPass(s3, draw) else s3
  }

  /** A driver just created from direction `d` at the state's clock. */
  predicate Fresh(s: State, v: Driver, d: Direction)
  {
    && v.origin == d && v.destination != d && v.event == Arrival
    && v.startTime == s.clock && v.busyTime == ArrivalTime
    && v.elapsedTime == 0 && !v.crashed
  }

  /** The invariant does not depend on how many random values have been taken. */
  lemma InvIgnoresDrawn(s: State, k: nat)
    requires Inv(s)
    ensures Inv(s.(drawn := k))
  {
    var t := s.(drawn := k);
    forall x: nat
      ensures Held(t, x) == Held(s, x)
    {
    }
    EachOnceByCounts(s, t);
  }

  lemma ClearPhaseKeepsInv(s: State, draw: nat -> Sample)
    requires Inv(s)
    ensures Inv(ClearPhase(s, draw))
  {
    if s.intersection != [] && s.intersection[0].busyTime <= 0 {
      var p := CrashPenalty(draw(s.drawn), s.intersection[0].isHuman);
      DepartKeepsInv(s, p);
      InvIgnoresDrawn(Depart(s, p), s.drawn + 1);
    }
  }

  lemma ArrivalStepKeepsInv(s: State, d: Direction)
    requires Inv(s)
    ensures Inv(ArrivalStep(s, d))
  {
    if s.arrivals.Get(d) != [] && s.arrivals.Get(d)[0].busyTime <= 0 {
      ArriveKeepsInv(s, d);
    }
  }

  lemma ArrivalPhaseKeepsInv(s: State)
    requires Inv(s)
    ensures Inv(ArrivalPhase(s))
  {
    var s1 := ArrivalStep(s, North);
    var s2 := ArrivalStep(s1, West);
    var s3 := ArrivalStep(s2, South);
    ArrivalStepKeepsInv(s, North);
    ArrivalStepKeepsInv(s1, West);
    ArrivalStepKeepsInv(s2, South);
    ArrivalStepKeepsInv(s3, East);
  }

  lemma AdmitPhaseKeepsInv(s: State)
    requires Inv(s)
    ensures s.stops.HeadsInPlace() && Inv(AdmitPhase(s))
  {
    ScanChoice(s.stops);
    var r := ScanPrefix(s.stops, 4).driver;
    if r.Some? && s.intersectionFree {
      AdmitKeepsInv(s, r.value.origin);
    }
  }

  /**
   * One arrival trial: it takes one to four random values, creates at most
   * one vehicle, named by the vehicle count, only in an empty arrival list,
   * and changes nothing but that list, the count and the values taken.
   */
  lemma TrialEffect(s: State, d: Direction, draw: nat -> Sample)
    ensures var t := Trial(s, d, draw);
      && s.drawn + 1 <= t.drawn <= s.drawn + 4
      && t.(arrivals := s.arrivals, numCars := s.numCars, drawn := s.drawn) == s
      && (forall e :: e != d ==> t.arrivals.Get(e) == s.arrivals.Get(e))
      && (t.numCars == s.numCars <==> t.arrivals.Get(d) == s.arrivals.Get(d))
      && (t.numCars == s.numCars || t.numCars == s.numCars + 1)
      && (t.numCars == s.numCars + 1 ==>
            && s.arrivals.Get(d) == [] && |t.arrivals.Get(d)| == 1
            && t.arrivals.Get(d)[0].name == s.numCars && Fresh(s, t.arrivals.Get(d)[0], d))
  {
  }

  /** The arrival trial preserves the invariant. */
  lemma TrialKeepsInv(s: State, d: Direction, draw: nat -> Sample)
    requires Inv(s)
    ensures Inv(Trial(s, d, draw))
  {
    var k := s.drawn;
    if ArrivalTrial(d, draw(k)) && s.arrivals.Get(d) == [] {
      var v := Created(s, d, draw, k + 1);
      var m := k + 1 + CreationDraws(draw, k + 1);
      SpawnKeepsInv(s, v, m);
      assert Trial(s, d, draw) == Spawn(s, v).(drawn := m);
    } else {
      InvIgnoresDrawn(s, k + 1);
      assert Trial(s, d, draw) == s.(drawn := k + 1);
    }
  }

  lemma GenerationKeepsInv(s: State, draw: nat -> Sample)
    requires Inv(s)
    ensures Inv(GenerationPass(s, draw))
  {
    var s1 := Trial(s, North, draw);
    var s2 := Trial(s1, East, draw);
    var s3 := Trial(s2, South, draw);
    TrialKeepsInv(s, North, draw);
    TrialKeepsInv(s1, East, draw);
    TrialKeepsInv(s2, South, draw);
    TrialKeepsInv(s3, West, draw);
  }

  /**
   * A generation pass takes four to sixteen random values, creates at most
   * four vehicles, and changes nothing but the arrival lists, the vehicle
   * count and the values taken.
   */
  lemma GenerationEffect(s: State, draw: nat -> Sample)
    ensures var t := GenerationPass(s, draw);
      && s.drawn + 4 <= t.drawn <= s.drawn + 16
      && s.numCars <= t.numCars <= s.numCars + 4
      && t.(arrivals := s.arrivals, numCars := s.numCars, drawn := s.drawn) == s
  {
    var s1 := Trial(s, North, draw);
    var s2 := Trial(s1, East, draw);
    var s3 := Trial(s2, South, draw);
    TrialEffect(s, North, draw);
    TrialEffect(s1, East, draw);
    TrialEffect(s2, South, draw);
    TrialEffect(s3, West, draw);
  }

  /**
   * Between states `s` and `t`, direction `d`'s arrival list went from empty
   * to exactly one freshly created driver, named between the two vehicle
   * counts.
   */
  predicate ArrivedFresh(s: State, t: State, d: Direction)
  {
    && s.arrivals.Get(d) == [] && |t.arrivals.Get(d)| == 1
    && s.numCars <= t.arrivals.Get(d)[0].name < t.numCars
    && Fresh(s, t.arrivals.Get(d)[0], d)
  }

  /**
   * In a generation pass every arrival list is either left as it was or
   * was empty and now holds one freshly created driver; so an occupied list
   * is never touched.
   */
  lemma GenerationArrivals(s: State, draw: nat -> Sample)
    ensures var t := GenerationPass(s, draw);
      forall d :: t.arrivals.Get(d) == s.arrivals.Get(d) || ArrivedFresh(s, t, d)
  {
    var s1 := Trial(s, North, draw);
    var s2 := Trial(s1, East, draw);
    var s3 := Trial(s2, South, draw);
    var t := Trial(s3, West, draw);
    TrialEffect(s, North, draw);
    TrialEffect(s1, East, draw);
    TrialEffect(s2, South, draw);
    TrialEffect(s3, West, draw);
    GenerationEffect(s, draw);
    forall d
      ensures t.arrivals.Get(d) == s.arrivals.Get(d) || ArrivedFresh(s, t, d)
    {
      match d
      case North =>
      case East =>
      case South =>
      case West =>
    }
  }

  /** The events of a tick preserve the invariant. */
  lemma EventsKeepInv(s: State, draw: nat -> Sample, totalCars: int)
    requires Inv(s)
    ensures Inv(Events(s, draw, totalCars))
  {
    var s1 := ClearPhase(s, draw);
    ClearPhaseKeepsInv(s, draw);
    var s2 := ArrivalPhase(s1);
    ArrivalPhaseKeepsInv(s1);
    var s3 := AdmitPhase(s2);
    AdmitPhaseKeepsInv(s2);
    if s3.numCars < totalCars {
      GenerationKeepsInv(s3, draw);
    }
  }

  /**
   * Clearance never sets the clock back, only appends to the finished
   * lists, at most one driver in all, and creates nobody.
   */
  lemma ClearPhaseEffect(s: State, draw: nat -> Sample)
    ensures var t := ClearPhase(s, draw);
      && s.clock <= t.clock && t.numCars == s.numCars
      && s.completed <= t.completed && s.crashed <= t.crashed
      && |t.completed| + |t.crashed| <= |s.completed| + |s.crashed| + 1
  {
  }

  /** The arrival loops change nothing but the arrival and stop lists. */
  lemma ArrivalPhaseFrame(s: State)
    ensures ArrivalPhase(s).(arrivals := s.arrivals, stops := s.stops) == s
  {
  }

  /** Admission changes nothing but the stop lists and the intersection. */
  lemma AdmitPhaseFrame(s: State)
    ensures AdmitPhase(s).(stops := s.stops, intersection := s.intersection, intersectionFree := s.intersectionFree) == s
  {
  }

  /**
   * What one tick's events do to the counters: the clock never goes back,
   * the finished lists only grow, by at most one driver in all, and at most
   * four vehicles are created, none once the target has been reached.
   */
  lemma EventsProgress(s: State, draw: nat -> Sample, totalCars: int)
    ensures var t := Events(s, draw, totalCars);
      && s.clock <= t.clock
      && s.completed <= t.completed && s.crashed <= t.crashed
      && |t.completed| + |t.crashed| <= |s.completed| + |s.crashed| + 1
      && s.numCars <= t.numCars <= s.numCars + 4
      && (s.numCars >= totalCars ==> t.numCars == s.numCars)
  {
    var s1 := ClearPhase(s, draw);
    ClearPhaseEffect(s, draw);
    var s2 := ArrivalPhase(s1);
    ArrivalPhaseFrame(s1);
    var s3 := AdmitPhase(s2);
    AdmitPhaseFrame(s2);
    if s3.numCars < totalCars {
      GenerationEffect(s3, draw);
    }
  }

  /**
   * The vehicle count overshoots the target by at most three: a generation
   * pass starts only below the target and creates at most four vehicles,
   * and the first pass, which may create four, is unconditional.
   */
  predicate WithinTarget(s: State, totalCars: int)
  {
    s.numCars <= 4 || s.numCars <= totalCars + 3
  }

  /** The run loop for at most `fuel` ticks: the tick budget, then the loop test. */
  function Simulate(s: State, draw: nat -> Sample, totalCars: int, fuel: nat): State
    decreases fuel, 2
  {
    if fuel == 0 then s else Loop(s, draw, totalCars, fuel)
  }

  /** The loop test: the run stops once the finished drivers reach the target. */
  function Loop(s: State, draw: nat -> Sample, totalCars: int, fuel: nat): State
    requires fuel > 0
    decreases fuel, 1
  {
    if |s.completed| + |s.crashed| >= totalCars then s else Advance(s, draw, totalCars, fuel)
  }

  /** The run loop's body: one whole tick, then the rest of the run. */
  function Advance(s: State, draw: nat -> Sample, totalCars: int, fuel: nat): State
    requires fuel > 0
    decreases fuel, 0
  {
    Simulate(Tick(Events(s, draw, totalCars)), draw, totalCars, fuel - 1)
  }

  /** A run that has not finished is one tick followed by a run one tick shorter. */
  lemma SimulateTick(s: State, draw: nat -> Sample, totalCars: int, fuel: nat)
    requires fuel > 0 && |s.completed| + |s.crashed| < totalCars
    ensures Simulate(s, draw, totalCars, fuel) == Simulate(Tick(Events(s, draw, totalCars)), draw, totalCars, fuel - 1)
  {
    assert Simulate(s, draw, totalCars, fuel) == Loop(s, draw, totalCars, fuel);
    assert Loop(s, draw, totalCars, fuel) == Advance(s, draw, totalCars, fuel);
  }

  /** A run that has used up its budget or reached the target is where it started. */
  lemma SimulateStops(s: State, draw: nat -> Sample, totalCars: int, fuel: nat)
    requires fuel == 0 || |s.completed| + |s.crashed| >= totalCars
    ensures Simulate(s, draw, totalCars, fuel) == s
  {
    if fuel > 0 {
      assert Simulate(s, draw, totalCars, fuel) == Loop(s, draw, totalCars, fuel);
    }
  }

  /**
   * A bounded run from a state satisfying the invariant and the vehicle
   * bound ends in such a state, with the clock no earlier and the finished
   * lists only appended to.
   */
  lemma {:induction false} SimulateKeepsInv(s: State, draw: nat -> Sample, totalCars: int, fuel: nat)
    requires Inv(s) && WithinTarget(s, totalCars)
    ensures var r := Simulate(s, draw, totalCars, fuel);
      && Inv(r) && WithinTarget(r, totalCars)
      && s.clock <= r.clock
      && s.completed <= r.completed && s.crashed <= r.crashed
    decreases fuel
  {
    if fuel > 0 && |s.completed| + |s.crashed| < totalCars {
      var t := SimulateNext(s, draw, totalCars, fuel);
      SimulateKeepsInv(t, draw, totalCars, fuel - 1);
      var r := Simulate(t, draw, totalCars, fuel - 1);
      PrefixTransitive(s.completed, t.completed, r.completed);
      PrefixTransitive(s.crashed, t.crashed, r.crashed);
    } else {
      SimulateStops(s, draw, totalCars, fuel);
    }
  }

  lemma PrefixTransitive(a: seq<Driver>, b: seq<Driver>, c: seq<Driver>)
    requires a <= b && b <= c
    ensures a <= c
  {
    assert a == b[..|a|] && b == c[..|b|];
    assert c[..|b|][..|a|] == c[..|a|];
  }

  /** The first tick of an unfinished run, with what it keeps. */
  lemma SimulateNext(s: State, draw: nat -> Sample, totalCars: int, fuel: nat) returns (t: State)
    requires Inv(s) && WithinTarget(s, totalCars)
    requires fuel > 0 && |s.completed| + |s.crashed| < totalCars
    ensures Simulate(s, draw, totalCars, fuel) == Simulate(t, draw, totalCars, fuel - 1)
    ensures Inv(t) && WithinTarget(t, totalCars)
    ensures s.clock < t.clock && s.completed <= t.completed && s.crashed <= t.crashed
  {
    t := Tick(Events(s, draw, totalCars));
    TickOutcome(s, draw, totalCars);
    SimulateTick(s, draw, totalCars, fuel);
  }

  /**
   * A whole tick keeps the invariant and the vehicle bound, moves the clock
   * forward, and only appends to the finished lists.
   */
  lemma TickOutcome(s: State, draw: nat -> Sample, totalCars: int)
    requires Inv(s) && WithinTarget(s, totalCars)
    ensures var r := Tick(Events(s, draw, totalCars));
      && Inv(r) && WithinTarget(r, totalCars)
      && s.clock < r.clock
      && s.completed <= r.completed && s.crashed <= r.crashed
  {
    EventsKeepInv(s, draw, totalCars);
    EventsProgress(s, draw, totalCars);
    TickKeepsInv(Events(s, draw, totalCars));
  }
}
