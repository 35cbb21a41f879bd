# All-way-stop intersection simulation, modelled in Dafny

This project models `intersection_sim_V2.py`. That program is a fixed-time-step simulation of one
all-way-stop intersection used by human drivers and self-driving cars. Every vehicle goes through
three states:

- it approaches the stop line (ARRIVAL);
- it waits at the stop line (STOP);
- it crosses the intersection (CLEAR).

When it leaves the intersection, it is recorded either as completed or as crashed. At most one
vehicle is inside the intersection at a time. A stopped vehicle is admitted once its minimum stop
time has run out and its countdown has then gone negative, so a countdown of exactly zero is
still passed over. Admission also needs a free intersection, and only one vehicle is admitted per
tick. Among the overdue vehicles at the heads of the four stop lists, the one with the smallest
countdown is chosen. Ties go to the first of North, East, South, West.

Each tick runs these phases in order:

1. clearance of the intersection;
2. the four arrival loops (North, West, South, East);
3. the admission of at most one stopped vehicle;
4. while fewer vehicles than the target have been created, one Bernoulli arrival trial per
   direction;
5. every countdown and the clock advance by one step.

The project has five modules:

- `Drivers` (`drivers.dfy`): the driver record, the directions and the timing constants. Time is
  counted in half-second units, so the step of 0.5 s is 1 and every constant is doubled. Every
  constant is a whole number of seconds, so this loses nothing.
- `RandomModel` (`random_model.dfy`): the probabilities and the random decisions, each a function of
  uniform samples in [0, 1). These are the arrival trial, the turn table, the driver type and the
  crash outcome.
- `Queues` (`driver_queue.dfy`):
  - the class `DriverQueue`, with its four arrival lists, its four stop lists and the intersection
    list, changed in place by its methods;
  - the countdown loops, as methods with loop invariants;
  - the admission scan;
  - name-occurrence counting.
- `SimState` (`sim_state.dfy`):
  - the whole simulation state as a value, and the four moves a driver makes through it;
  - the phases of a tick built from those moves, and the bounded run `Simulate`, which is proved to
    keep the invariant;
  - the invariant `Inv`, with the lemmas that every move keeps it. `Inv` says:
    - the intersection holds at most one driver, and holds none exactly when the flag says it is
      free;
    - every driver waits in its own origin's lists, in the matching state;
    - at most one driver approaches per direction;
    - within a direction, drivers are in creation order;
    - finished drivers sit in the list that matches their crash flag;
    - every vehicle ever created is held in exactly one place.
- `Engine` (`simulation.dfy`): the class `Simulation`, whose fields the methods update step by step
  as the source does. Each method is proved to produce exactly the state that the matching
  `SimState` function describes. `Run` and `Step` also keep the invariant.

Every call of the random source is one value taken from an injected function `draw: nat -> Sample`.
The simulation counts how many values it has taken. The k-th call reads `draw(k)`, so a run is a
function of its draws.

## Model

| member | source | states |
|---|---|---|
| Drivers.NewDriver | intersection_sim_V2.py:52-61 | A new driver is approaching, not crashed, with zero elapsed time, and its countdown is the arrival time it is given. |
| Drivers.MinStopTime | intersection_sim_V2.py:201-205 | The minimum stop time of the driver's type. |
| Drivers.CrossingTime | intersection_sim_V2.py:355-371 | The clear time when the destination is opposite the origin, the turning time otherwise, each by driver type. |
| Drivers.CrossingTimeOrder | intersection_sim_V2.py:21-26 | For one driver type, going straight is quicker than turning. A self-driving car crosses faster than a human driver, both going straight and turning, and waits less at the stop line. All these times are positive. |
| RandomModel.ArrivalTrial | intersection_sim_V2.py:237-239 | The trial succeeds when the sample is below the direction's arrival probability. |
| RandomModel.ChooseManeuver | intersection_sim_V2.py:240-248 | A turn below the turn probability, then left below the left-turn probability and right otherwise. Straight at or above the turn probability. |
| RandomModel.ChooseIsHuman | intersection_sim_V2.py:249-253 | Human exactly when the sample is below the human probability. |
| RandomModel.Destination | intersection_sim_V2.py:239-311 | The turn table never sends a vehicle back the way it came. It reaches the opposite side exactly when it goes straight. |
| RandomModel.DestinationIsOneToOne | intersection_sim_V2.py:239-311 | Two different manoeuvres from one origin lead to different exits. Every other direction is reached by some manoeuvre. |
| RandomModel.CrashPenalty | intersection_sim_V2.py:335-346 | The penalty is 0, the fender-bender time or the fatal time. It is fatal exactly below the type's fatal threshold. It is a fender-bender exactly between the fatal and fender-bender thresholds. It is 0 exactly at or above the fender-bender threshold. |
| RandomModel.SelfDrivingNoWorse | intersection_sim_V2.py:337-346 | On the same sample, a self-driving car's penalty never exceeds a human driver's. |
| Queues.ElapseEach | intersection_sim_V2.py:97-114 | One countdown loop returns the list with every driver's countdown one step lower. The order and all other fields are kept. |
| Queues.ResetEach | intersection_sim_V2.py:134-149 | One clamping loop returns the list with every negative countdown set to zero. |
| Queues.Aged | intersection_sim_V2.py:96-114 | Every driver of a list with its countdown one step lower. |
| Queues.Clamped | intersection_sim_V2.py:133-149 | Every driver of a list with a negative countdown floored at zero. |
| Queues.CountdownUpdatesKeepNames | intersection_sim_V2.py:96-149 | Lowering or clamping countdowns keeps the same drivers in the same order, so every name occurs as often as before. |
| Queues.CountdownUpdatesKeepLane | intersection_sim_V2.py:96-149 | Lowering or clamping countdowns keeps a list's origin, state, crash flag and creation order. After clamping, no countdown is negative. |
| Queues.Lanes.Set | intersection_sim_V2.py:73-91 | Replacing one direction's list leaves the other three directions' lists unchanged. |
| Queues.Lanes.SetCounts | intersection_sim_V2.py:73-91 | Replacing one list swaps that list's drivers in the name totals and in the driver count. |
| Queues.Consider | intersection_sim_V2.py:119-121 | One step of the scan: the list's head replaces the running best only when its countdown is strictly below the running minimum. |
| Queues.ScanPrefix | intersection_sim_V2.py:116-131 | The scan over the first directions of North, East, South, West, starting from minimum zero and nobody. |
| Queues.ScanChoice | intersection_sim_V2.py:116-131 | The scan chooses nobody exactly when no stop-list head is overdue (negative countdown). Otherwise it chooses an overdue head whose countdown is no larger than any head's. If heads sit in their own lists, the chosen driver heads its origin's list and is strictly below every head earlier in N, E, S, W order. |
| Queues.DriverQueue.constructor | intersection_sim_V2.py:68-71 | All nine lists start empty. |
| Queues.DriverQueue.AddDriverArrivals | intersection_sim_V2.py:73-81 | Appends the driver to its origin's arrival list and nowhere else. |
| Queues.DriverQueue.AddDriverStop | intersection_sim_V2.py:83-91 | Appends the driver to its origin's stop list and nowhere else. |
| Queues.DriverQueue.AddDriverIntersection | intersection_sim_V2.py:93-94 | Appends the driver to the intersection list. |
| Queues.DriverQueue.ElapseDriverTime | intersection_sim_V2.py:96-114 | All nine lists are aged by one step. |
| Queues.DriverQueue.NextDriver | intersection_sim_V2.py:116-131 | Returns nobody exactly when no stop-list head is eligible (overdue). Otherwise it returns an eligible head with the least countdown of all eligible heads. Ties go to the direction earliest in N, E, S, W order. A head at exactly zero is never chosen. |
| Queues.DriverQueue.ResetBusyTime | intersection_sim_V2.py:133-149 | Clamps the negative countdowns of one direction's stop list. The other lists are unchanged. |
| SimState.Initial | intersection_sim_V2.py:156-161 | Empty lists, a free intersection, no vehicles, clock zero. |
| SimState.Arrive | intersection_sim_V2.py:197-231 | ARRIVAL to STOP: the head of the direction's arrival list goes to the tail of its stop list, with the type's minimum stop time. |
| SimState.Admit | intersection_sim_V2.py:349-438 | STOP to CLEAR: the head of the direction's stop list enters the intersection with its crossing time. The remaining negative countdowns of that list are clamped, and the intersection is occupied. |
| SimState.Depart | intersection_sim_V2.py:321-333 | CLEAR to finished: the clock takes the penalty, and the elapsed time is measured against the new clock. The driver goes to the crashed list when the penalty is positive, else to the completed list. The intersection is free once empty. |
| SimState.Spawn | intersection_sim_V2.py:255-256 | A new vehicle joins the tail of its origin's arrival list, and the vehicle count rises by one. |
| SimState.Tick | intersection_sim_V2.py:170-171 | Every held driver's countdown, then the clock, advance by one step. |
| SimState.InitialInv | intersection_sim_V2.py:155-164 | The empty starting state satisfies the invariant. |
| SimState.ArriveCounts | intersection_sim_V2.py:197-231 | Reaching the stop line keeps the driver count and every name's count. |
| SimState.ArriveLanes | intersection_sim_V2.py:197-231 | Reaching the stop line keeps drivers in their own lanes and in creation order. It empties that direction's arrival list. |
| SimState.ArriveKeepsInv | intersection_sim_V2.py:197-231 | ARRIVAL to STOP preserves the invariant and empties the direction's arrival list. |
| SimState.AdmitFirstInLine | intersection_sim_V2.py:349-438 | The admitted driver was created before every driver still waiting or approaching in its direction. Nobody overtakes. |
| SimState.AdmitCounts | intersection_sim_V2.py:349-438 | Admission keeps the driver count and every name's count. |
| SimState.AdmitLanes | intersection_sim_V2.py:349-438 | Admission, with the remaining countdowns clamped, keeps drivers in their own lanes and in creation order. |
| SimState.AdmitKeepsInv | intersection_sim_V2.py:349-438 | STOP to CLEAR into a free intersection preserves the invariant, the single occupant included. |
| SimState.AdmitPhaseKeepsInv | intersection_sim_V2.py:190-192 | Under the invariant, every stop-list head sits in its own list. The admission phase keeps the invariant. |
| SimState.DepartCounts | intersection_sim_V2.py:321-333 | Leaving the intersection keeps the driver count and every name's count. |
| SimState.DepartKeepsInv | intersection_sim_V2.py:321-333 | CLEAR to finished preserves the invariant and leaves the intersection free. |
| SimState.SpawnCounts | intersection_sim_V2.py:255-256 | Creating a vehicle adds one driver and one occurrence of its name. |
| SimState.SpawnLanes | intersection_sim_V2.py:239-256 | A new vehicle in an empty arrival list keeps lanes in place and in creation order. |
| SimState.SpawnEachOnce | intersection_sim_V2.py:238-256 | A vehicle named by the vehicle count keeps every created name held exactly once. |
| SimState.SpawnKeepsInv | intersection_sim_V2.py:237-256 | Creating a vehicle into an empty arrival list preserves the invariant. |
| SimState.TickCounts | intersection_sim_V2.py:170-171 | The end of a tick keeps the driver count and every name's count. |
| SimState.TickLanes | intersection_sim_V2.py:170-171 | The end of a tick keeps lanes in place and in creation order. |
| SimState.TickKeepsInv | intersection_sim_V2.py:170-171 | The end of a tick preserves the invariant. |
| SimState.ClearPhase | intersection_sim_V2.py:174-176 | The driver in the intersection leaves once its countdown is at most zero, with the crash penalty of the next random value. |
| SimState.ArrivalStep | intersection_sim_V2.py:177-179 | A direction's approaching driver reaches the stop line once its countdown is at most zero. |
| SimState.ArrivalPhase | intersection_sim_V2.py:177-188 | The four arrival loops in the order North, West, South, East. |
| SimState.AdmitPhase | intersection_sim_V2.py:190-192 | The scan's chosen driver, if any, enters the intersection when it is free. |
| SimState.Trial | intersection_sim_V2.py:237-256 | One value is always taken. A vehicle is created only when it is below the direction's probability and the arrival list is empty. |
| SimState.GenerationPass | intersection_sim_V2.py:234-319 | The four trials in the order North, East, South, West. |
| SimState.Events | intersection_sim_V2.py:173-195 | Clearance, the arrival loops, admission, then a generation pass while fewer vehicles than the target have been created. |
| SimState.CreationDraws | intersection_sim_V2.py:240-253 | Creating a vehicle takes two random values, or three when it turns. |
| SimState.Created | intersection_sim_V2.py:237-319 | A created vehicle gets the next name and starts at the clock with the arrival countdown. It comes from its direction and is headed elsewhere. |
| SimState.TrialEffect | intersection_sim_V2.py:237-256 | A trial takes one to four values and creates at most one vehicle, only into an empty arrival list. The new vehicle is named by the old count and is fresh. Nothing else changes. |
| SimState.TrialKeepsInv | intersection_sim_V2.py:237-256 | One arrival trial preserves the invariant. |
| SimState.GenerationKeepsInv | intersection_sim_V2.py:234-319 | The generation pass preserves the invariant. |
| SimState.GenerationEffect | intersection_sim_V2.py:234-319 | The generation pass takes 4 to 16 values and creates 0 to 4 vehicles. It changes nothing but the arrival lists, the count and the values taken. |
| SimState.GenerationArrivals | intersection_sim_V2.py:234-319 | Each arrival list is either unchanged or went from empty to one freshly created driver. |
| SimState.ClearPhaseKeepsInv | intersection_sim_V2.py:174-176 | The clearance loop preserves the invariant. |
| SimState.ArrivalPhaseKeepsInv | intersection_sim_V2.py:177-188 | The four arrival loops preserve the invariant. |
| SimState.EventsKeepInv | intersection_sim_V2.py:173-195 | The events of one tick preserve the invariant. |
| SimState.EventsProgress | intersection_sim_V2.py:173-195 | Over the events of a tick, the clock never goes back and the finished lists only grow, by at most one. At most four vehicles are created, and none once the target is reached. |
| SimState.Simulate | intersection_sim_V2.py:166-167 | The run loop for at most a given number of ticks. |
| SimState.Loop | intersection_sim_V2.py:167 | The loop test: the run stops once the finished drivers reach the target. |
| SimState.Advance | intersection_sim_V2.py:168-171 | The loop body: one tick's events, the countdowns and the clock, then the rest of the run. |
| SimState.SimulateKeepsInv | intersection_sim_V2.py:166-171 | A bounded run from a state satisfying the invariant and the vehicle bound ends in such a state. The clock never goes back, and the finished lists are only appended to. |
| SimState.TickOutcome | intersection_sim_V2.py:166-171 | A whole loop iteration keeps the invariant and the vehicle bound. It moves the clock strictly forward and only appends to the finished lists. |
| Engine.Simulation.constructor | intersection_sim_V2.py:155-164 | A new simulation is the first generation pass over the empty state. It satisfies the invariant. |
| Engine.Simulation.Draw | intersection_sim_V2.py:237 | Takes the next value of the random source. |
| Engine.Simulation.Run | intersection_sim_V2.py:166-171 | Runs at most `maxTicks` ticks and ends in the state of `Simulate`. It stops early only once the target is reached. It keeps the invariant, advances the clock at least one step per tick and only appends to the finished lists. |
| Engine.Simulation.Step | intersection_sim_V2.py:169-171 | One loop iteration is the tick's events followed by the countdown and clock advance. It keeps the invariant and moves the clock forward. |
| Engine.Simulation.ExecuteEvents | intersection_sim_V2.py:173-195 | The in-place tick phases produce the state of `Events`. |
| Engine.Simulation.ArrivalPass | intersection_sim_V2.py:177-188 | One direction's arrival loop. |
| Engine.Simulation.ExecuteArrival | intersection_sim_V2.py:197-231 | The head of the origin's arrival list moves to the tail of its stop list, with the type's minimum stop time. |
| Engine.Simulation.ExecuteStop | intersection_sim_V2.py:349-438 | Nothing changes when the intersection is occupied. Otherwise the driver moves from the head of its stop list into the intersection with its crossing time, the remaining countdowns are clamped, and the flag is cleared. |
| Engine.Simulation.GenerateArrivals | intersection_sim_V2.py:234-319 | The four trials in the order North, East, South, West. |
| Engine.Simulation.TryArrival | intersection_sim_V2.py:237-256 | One direction's trial. A vehicle is created exactly when the first value is below the direction's probability and the arrival list is empty. The count rises exactly then. |
| Engine.Simulation.ExecuteCrash | intersection_sim_V2.py:335-346 | Takes one value and returns its crash penalty. |
| Engine.Simulation.ExecuteClear | intersection_sim_V2.py:321-333 | The clock takes the penalty, and the driver's elapsed time is measured against the new clock. The driver goes to the crashed list iff the penalty is positive, else to the completed list. It leaves the intersection, which is free once empty. |

## Left out

- `output_times`, `output_to_CSV` and `main` (`intersection_sim_V2.py:440-459`) are console and
  file output, and are left out. Note that the CSV line at line 450 lacks a comma between the
  destination and the crash flag. That function also writes only the completed cars.
- The `matplotlib` import (line 2) is unused.
- `random.random()` is replaced by the injected `draw` function. No statistical property of the
  probabilities is stated.
- Floating-point time is not modelled. Time is exact integers in half-second units, so the step of
  0.5 s is 1 unit and every constant is doubled.
- `Driver.get_from_to` (lines 63-64) is read as the two fields `origin` and `destination`.
- Drivers are values in sequences, not shared objects. In the source a driver object is in exactly
  one list at a time: `Inv`, through `EachOnce`, proves that every created name is held exactly
  once. So no aliasing is observable, and the value model follows the source's in-place mutation of
  the driver.
- The loops over the intersection list and over each arrival list (lines 174-188) process only the
  head. The invariant bounds each of these lists to at most one driver, so this is exact for every
  reachable state. Longer lists would show the source's skip-on-`pop(0)` iteration, which is not
  modelled.
- `SimState.AdmitPhase` also tests that the chosen driver's origin stop list is not empty. That
  only keeps the function total: `AdmitPhaseKeepsInv` shows the chosen driver heads that list in
  every state satisfying the invariant.
- Engine.Simulation.Run: the source's `run` loops until the target is reached, which depends on
  the draws and need not terminate. `Run` takes a tick budget `maxTicks` and is specified by the
  bounded `SimState.Simulate`.
- `ChooseManeuver` and `ChooseIsHuman` carry no contract of their own. Their effect is stated
  through `Destination`, `Created` and `TrialEffect`.
- The vehicle count is not bounded by the target. As in the source, the first generation pass is
  unconditional and a later pass may create up to four vehicles, so the count may exceed the target
  by up to three. The bound kept is `WithinTarget`.
