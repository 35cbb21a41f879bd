/**
 * The simulation engine: the clock, the count of vehicles created, the
 * "intersection free" flag and the lists of finished drivers, advanced one
 * fixed tick at a time. Random decisions read an injected source `draw`:
 * the k-th value the engine asks for is draw(k).
 */
module Engine {
  import opened Drivers
  import opened RandomModel
  import opened Queues
  import opened SimState

  class Simulation {
    var numCars: nat
    const totalCars: int
    var clock: int
    var intersectionFree: bool
    const queue: DriverQueue
    var completedCars: seq<Driver>
    var crashedCars: seq<Driver>
    /** The injected random source and how many values have been taken from it. */
    const draw: nat -> Sample
    var drawn: nat

    /** The simulation's state as a value. */
    ghost function Snapshot(): State
      reads this, queue
    {
      State(queue.arrivals, queue.stops, queue.intersection, intersectionFree,
            completedCars, crashedCars, numCars, clock, drawn)
    }

    ghost predicate Valid()
      reads this, queue
    {
      Inv(Snapshot()) && WithinTarget(Snapshot(), totalCars)
    }

    /** A fresh simulation, after its first (unconditional) generation pass. */
    constructor (totalCars: int, draw: nat -> Sample)
      ensures Valid()
      ensures this.totalCars == totalCars && this.draw == draw
      ensures Snapshot() == GenerationPass(Initial(), draw)
      ensures fresh(queue)
    {
      this.numCars := 0;
      this.totalCars := totalCars;
      this.clock := 0;
      this.intersectionFree := true;
      this.queue := new DriverQueue();
      this.completedCars := [];
      this.crashedCars := [];
      this.draw := draw;
      this.drawn := 0;
      new;
      GenerateArrivals();
      InitialInv();
      GenerationKeepsInv(Initial(), draw);
      GenerationEffect(Initial(), draw);
    }

    /** One call of the random source. */
    method Draw() returns (r: Sample)
      modifies this`drawn
      ensures r == draw(old(drawn)) && drawn == old(drawn) + 1
    {
      r := draw(drawn);
      drawn := drawn + 1;
    }

    /**
     * The run loop, for at most `maxTicks` ticks: it stops early only once
     * the finished drivers reach the target.
     */
    method Run(maxTicks: nat) returns (ticks: nat)
      requires Valid()
      modifies this, queue
      ensures Valid()
      ensures Snapshot() == Simulate(old(Snapshot()), draw, totalCars, maxTicks)
      ensures ticks <= maxTicks
      ensures ticks < maxTicks ==> |completedCars| + |crashedCars| >= totalCars
      ensures old(clock) + ticks * TimeStep <= clock
      ensures old(completedCars) <= completedCars && old(crashedCars) <= crashedCars
    {
      ticks := 0;
      while ticks < maxTicks && |completedCars| + |crashedCars| < totalCars
        invariant Valid()
        invariant ticks <= maxTicks
        invariant Simulate(Snapshot(), draw, totalCars, maxTicks - ticks)
                  == Simulate(old(Snapshot()), draw, totalCars, maxTicks)
        invariant old(clock) + ticks * TimeStep <= clock
        invariant old(completedCars) <= completedCars && old(crashedCars) <= crashedCars
      {
        ghost var before := Snapshot();
        Step();
        SimulateTick(before, draw, totalCars, maxTicks - ticks);
        ticks := ticks + 1;
      }
      SimulateStops(Snapshot(), draw, totalCars, maxTicks - ticks);
    }

    /**
     * One iteration of the run loop: the events of the tick, then every
     * countdown lowered by one step, then the clock advanced by one step.
     */
    method Step()
      requires Valid()
      modifies this, queue
      ensures Valid()
      ensures Snapshot() == Tick(Events(old(Snapshot()), draw, totalCars))
      ensures old(clock) < clock
      ensures old(completedCars) <= completedCars && old(crashedCars) <= crashedCars
    {
      ghost var before := Snapshot();
      ExecuteEvents();
      ghost var after := Snapshot();
      queue.ElapseDriverTime();
      clock := clock + TimeStep;
      assert Snapshot() == Tick(after);
      TickOutcome(before, draw, totalCars);
    }

    /**
     * The events of one tick, in order: clearance of the intersection,
     * arrivals reaching the stop line (North, West, South, East), admission
     * of at most one stopped driver, and arrival generation while fewer
     * vehicles than the target have been created.
     */
    method ExecuteEvents()
      requires Inv(Snapshot())
      modifies this, queue
      ensures Snapshot() == Events(old(Snapshot()), draw, totalCars)
    {
      ghost var s0 := Snapshot();
      if queue.intersection != [] && queue.intersection[0].busyTime <= 0 {
        ExecuteClear(queue.intersection[0]);
      }
      ghost var s1 := Snapshot();
      assert s1 == ClearPhase(s0, draw);
      ClearPhaseKeepsInv(s0, draw);
      assert queue.arrivals.AllInPlace();
      ArrivalPass(North);
      ArrivalPass(West);
      ArrivalPass(South);
      ArrivalPass(East);
      ghost var s2 := Snapshot();
      assert s2 == ArrivalPhase(s1);
      ArrivalPhaseKeepsInv(s1);
      AdmitPhaseKeepsInv(s2);
      var next := queue.NextDriver();
      if next.Some? {
        ExecuteStop(next.value);
      }
      assert Snapshot() == AdmitPhase(s2);
      if numCars < totalCars {
        GenerateArrivals();
      }
    }

    /** The loop over one direction's arrival list. */
    method ArrivalPass(d: Direction)
      requires queue.arrivals.AllInPlace()
      modifies queue`arrivals, queue`stops
      ensures queue.arrivals.AllInPlace()
      ensures Snapshot() == ArrivalStep(old(Snapshot()), d)
    {
      if queue.arrivals.Get(d) != [] && queue.arrivals.Get(d)[0].busyTime <= 0 {
        ExecuteArrival(queue.arrivals.Get(d)[0]);
      }
    }

    /** ARRIVAL to STOP for the head of the driver's origin arrival list. */
    method ExecuteArrival(v: Driver)
      requires queue.arrivals.Get(v.origin) != [] && queue.arrivals.Get(v.origin)[0] == v
      modifies queue`arrivals, queue`stops
      ensures Snapshot() == Arrive(old(Snapshot()), v.origin)
    {
      var w := v.(event := Stop, busyTime := MinStopTime(v.isHuman));
      queue.arrivals := queue.arrivals.Set(v.origin, queue.arrivals.Get(v.origin)[1..]);
      queue.AddDriverStop(w);
    }

    /**
     * STOP to CLEAR for the head of the driver's origin stop list, when the
     * intersection is free; when it is occupied nothing changes.
     */
    method ExecuteStop(v: Driver)
      requires queue.stops.Get(v.origin) != [] && queue.stops.Get(v.origin)[0] == v
      modifies this`intersectionFree, queue`stops, queue`intersection
      ensures Snapshot() == if old(intersectionFree) then Admit(old(Snapshot()), v.origin) else old(Snapshot())
    {
      if !intersectionFree {
        return;
      }
      var d := v.origin;
      queue.stops := queue.stops.Set(d, queue.stops.Get(d)[1..]);
      queue.ResetBusyTime(d);
      queue.AddDriverIntersection(v.(event := Clear, busyTime := CrossingTime(v)));
      intersectionFree := false;
    }

    /** The arrival generation pass: one trial per direction, North, East, South, West. */
    method GenerateArrivals()
      modifies this`drawn, this`numCars, queue`arrivals
      ensures Snapshot() == GenerationPass(old(Snapshot()), draw)
    {
      var north := TryArrival(North);
      var east := TryArrival(East);
      var south := TryArrival(South);
      var west := TryArrival(West);
    }

    /** The arrival trial of one direction; `created` says whether a vehicle was created. */
    method TryArrival(d: Direction) returns (created: bool)
      modifies this`drawn, this`numCars, queue`arrivals
      ensures Snapshot() == Trial(old(Snapshot()), d, draw)
      ensures created == (ArrivalTrial(d, draw(old(drawn))) && old(queue.arrivals).Get(d) == [])
      ensures created <==> numCars == old(numCars) + 1
    {
      ghost var s0 := Snapshot();
      var r := Draw();
      var carId := numCars;
      created := ArrivalTrial(d, r) && queue.arrivals.Get(d) == [];
      if created {
        var turnSample := Draw();
        var leftSample: Sample := 0.0;
        if turnSample < TurnProbability {
          leftSample := Draw();
        }
        var maneuver := ChooseManeuver(turnSample, leftSample);
        var humanSample := Draw();
        var v := NewDriver(carId, clock, ArrivalTime, d, Destination(d, maneuver), ChooseIsHuman(humanSample));
        assert v == Created(s0, d, draw, s0.drawn + 1);
        queue.AddDriverArrivals(v);
        numCars := numCars + 1;
      }
    }

    /**
     * The crash outcome of a driver leaving the intersection: one sample,
     * turned into a clock penalty by the driver type's thresholds.
     */
    method ExecuteCrash(v: Driver) returns (penalty: int)
      modifies this`drawn
      ensures penalty == CrashPenalty(draw(old(drawn)), v.isHuman) && drawn == old(drawn) + 1
    {
      var r := Draw();
      penalty := CrashPenalty(r, v.isHuman);
    }

    /** CLEAR to finished for the driver inside the intersection. */
    method ExecuteClear(v: Driver)
      requires queue.intersection != [] && queue.intersection[0] == v
      modifies this`clock, this`drawn, this`completedCars, this`crashedCars, this`intersectionFree,
               queue`intersection
      ensures Snapshot() == Depart(old(Snapshot()), CrashPenalty(draw(old(drawn)), v.isHuman)).(drawn := old(drawn) + 1)
    {
      var penalty := ExecuteCrash(v);
      clock := clock + penalty;
      var w := v.(elapsedTime := clock - v.startTime);
      if penalty > 0 {
        w := w.(crashed := true);
        crashedCars := crashedCars + [w];
      } else {
        completedCars := completedCars + [w];
      }
      queue.intersection := queue.intersection[1..];
      if queue.intersection == [] {
        intersectionFree := true;
      }
    }
  }
}
