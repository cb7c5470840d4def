# Robot behaviour logic — a Dafny model

The repository is a browser simulation of a small robot. It drives around a
walled 28 x 28 arena, collects glowing orbs, avoids pillars and walls, and
drains a battery. Its behaviour is chosen by a Markov chain over an 18-state
enumeration (`movingFwd` … `seeingChgStationProximal`). Sensed situations
override the chain.

The decision logic exists in several divergent copies, and this project
models each one as written, without merging them:

- **Two Markov chains.**
  - `MarkovChain` in robot-test/markov.js (module `TestMarkov`) checks the
    matrix dimensions and allows a tolerance of 0.0001 on row sums. It also
    forces `awaiting` after 2000 ms in one state.
  - `markovChain` in markov.js (module `Markov`) uses an exact 0-or-1 sum
    check with no dimension check. When the draw is never consumed it falls
    back to `awaiting`, and it returns an angular-speed hint, modelled as the
    tag `Zero | Small | Ninety`.
  - Both sample by walking the cumulative row (`StateSpace.FirstExceeding`).
    Both ship the same 18 x 18 matrix (`StateSpace.Shipped`).
- **Four conflict resolvers**, which collapse a list of sensed states into
  one. Module `Resolvers` proves on concrete inputs that their priority
  orders disagree.
  - `solveCurStateConflict` of robot-test/utils.js puts obstacles first.
  - `solveCurStateConflict` of markov.js puts orbs first and can throw.
  - The `statePriority` override of main.js.
  - The priority sort of decisionModel.js. Its verbatim copy is in
    test-old-markov/robot.js.
- **Two sensors.**
  - `RobotController.detectStates` of utils.js gates readings to every
    100 ms and keeps a duplicate-free set of the four sight states.
  - `EnvironmentSensor.detectStates` of robot-test/utils.js reports at most
    one state.
- **Two action state machines.**
  - `RobotController.moveRobot` in utils.js takes one step per tick. Its
    2000 ms timeout forces `awaiting`.
  - `moveRobot` in robot-test/main.js drives a movement over several ticks.
    A flag and a target record the movement in progress.
- **Two frame loops** (`animate` in main.js and in robot-test/main.js). They
  combine sensing, deciding, moving, the energy bookkeeping and game over.
- **The arena layout** of environment.js:
  - a rows x cols grid;
  - jittered positions inside a cell;
  - pillars and orbs placed in distinct cells by rejection loops.
- **utils/randomization.js**: uniform positions in a rectangle.
- **The sampling histogram** of test-old-markov/robot.js.

Inputs the model takes as parameters:

- The clock (`performance.now()` and the frame time) is the parameter `now`.
- `Math.random()` is a draw `r`, or a finite sequence of draws.
- The geometry computed by Three.js is an abstract input:
  - ray hit distances (`World.Ray`);
  - robot-to-entity distances before and after a step;
  - the candidate next position;
  - the forward hit;
  - the side clearances;
  - "beyond one step" flags for movement targets.

Inputs the model keeps:

- Scene children are `World.Entity` values (kind and visibility) in a
  `World.Scene` object.
- The robot is a `World.Robot` object whose position the controllers update
  in place.
- Imperative source code stays imperative: classes with `modifies` frames,
  loops with invariants, and in-place array sorting. Each method is proved
  against a specification function or a stated invariant.

Three behaviours of the code worth noting:

- In utils.js, `lastStateChangeTime` is written only by the constructor and
  by the 2000 ms timeout of `moveRobot` (utils.js:31, 166-170). It is never
  written on a state change, so the timeout measures time since the last
  timeout rather than time spent in one state.
- In robot-test/utils.js, `detectStates` consults obstacles only while the
  result list is still empty (robot-test/utils.js:69). It therefore reports
  at most one state in total, not one obstacle state per ray.
- In main.js, a frame whose clock runs backwards gives a negative
  `deltaTime`, and then the energy drain adds energy. `Tick` promises that
  energy does not rise only when the clock does not run backwards.

## Model

| member | source | states |
|---|---|---|
| StateSpace.Index | robot-test/markov.js:3-22 | every state has an integer identity below 18, and the table `All` maps it back to the state |
| StateSpace.FromIndex | robot-test/markov.js:3-22 | a number stands for a state iff it lies in 0..17, and that state's identity is the number |
| StateSpace.StateName | robot-test/markov.js:76-78 | `getStateName` gives the key of a valid state number and "unknown" for any other number |
| StateSpace.StateNameRoundTrip | robot-test/markov.js:76-78 | no valid state is named "unknown", and a name determines the number it came from |
| StateSpace.FirstPresent | markov.js:83-87 | the first member of the order list that the states include; `None` iff none is included |
| StateSpace.FirstPresentAt | main.js:115-121 | when entry `i` is present and no earlier entry is, the first present entry is entry `i` |
| StateSpace.FirstPresentBySet | main.js:115-121 | a first-match loop depends only on which states are present, not on their order or repetition |
| StateSpace.FirstExceeding | robot-test/markov.js:58-69 | the sampled index is the first whose cumulative probability exceeds `r`; `None` iff no prefix sum exceeds `r` |
| StateSpace.FirstExceedingIs | robot-test/markov.js:58-69 | an index where `r` is first exceeded is the one the walk returns |
| StateSpace.SampledEntryPositive | robot-test/markov.js:58-68 | with `r >= 0`, the walk can only pick an entry with positive probability |
| StateSpace.StochasticRowSamples | robot-test/markov.js:71-73 | on a row summing to 1, a draw in [0, 1) is always consumed, so the fallback is never reached |
| StateSpace.ZeroRowNeverSamples | markov.js:47-53 | an all-zero row never consumes a non-negative draw |
| StateSpace.UnitRowSamples | robot-test/markov.js:117 | a row with a single 1 samples that entry for every draw in [0, 1) |
| StateSpace.ShippedIsStochastic | robot-test/markov.js:102-121 | the shipped matrix is 18 x 18, non-negative, and every row sums to 1 |
| StateSpace.ShippedStochastic | markov.js:125-144 | the matrix markov.js ships is stochastic in the same sense |
| StateSpace.StochasticSample | markov.js:47-53 | on a stochastic matrix, a draw in [0, 1) always picks a state of positive probability |
| TestMarkov.CheckMatrixCompiles | robot-test/markov.js:80-97 | wrong row count iff the matrix does not have 18 rows; success iff every row has 18 columns and sums to 0 or to 1 within 0.0001; otherwise the first offending row, either a column error or the row index of a sum error |
| TestMarkov.MarkovChain.constructor | robot-test/markov.js:25-33 | a validated matrix, the timestamp set to the clock, and the timeout of 2000 ms |
| TestMarkov.NewMarkovChain | robot-test/markov.js:25-30 | a chain exists iff the matrix passes the check; otherwise the check's own error is thrown: the row count iff there are not 18 rows, the first failing row for a sum error with every earlier row valid, and a short or long row for a column error |
| TestMarkov.MarkovChain.NewState | robot-test/markov.js:35-74 | the result and the new `lastStateChangeTime` are exactly the `Step` of the old timestamp, the current state, the clock and the draw |
| TestMarkov.InvalidStateThrows | robot-test/markov.js:37-40 | `newState` throws iff the state has no row, and then writes nothing |
| TestMarkov.SampledStateIsFirstExceeding | robot-test/markov.js:58-68 | without a forced `awaiting`, the result is the first state whose cumulative probability exceeds `r`, reported with pi/60, and it has positive probability |
| TestMarkov.ZeroRowKeepsState | robot-test/markov.js:46-73 | an all-zero row always yields the current state, reported with pi/90; the timeout cannot force `awaiting` there |
| TestMarkov.TimeoutForcesAwaiting | robot-test/markov.js:46-56 | after more than 2000 ms, a row that allows `awaiting` yields it whatever the draw; the timestamp becomes the clock even when `awaiting` is impossible |
| TestMarkov.ChangeTimeOnlyOnTimeoutOrChange | robot-test/markov.js:46-63 | the timestamp changes only on a timeout or a sampled state different from the current one, and then it becomes the clock |
| TestMarkov.SampleInRange | robot-test/markov.js:58-73 | every state `newState` returns is a state of the enumeration |
| TestMarkov.ShippedCompiles | robot-test/markov.js:102-121 | the shipped matrix passes validation |
| TestMarkov.MovingFwdSuccessors | robot-test/markov.js:103 | from `movingFwd`, only `movingFwd`, `rotatingLeft` or `rotatingRight` can follow, at any time and for any draw in [0, 1) |
| TestMarkov.ChargingAbsorbing | robot-test/markov.js:117 | `charging` always yields `charging`: its row is the self-loop 1 and it gives `awaiting` no probability |
| Markov.CheckMatrixCompiles | markov.js:113-121 | success iff every row sums to exactly 0 or 1; on failure, the lowest failing row; rows and columns are not counted |
| Markov.SharpTurnStatesAre | markov.js:108-111 | `arrForAngle90` holds exactly `collisionDetected`, `seeingObstacleProximal` and `chargingFinished` |
| Markov.MarkovChain.constructor | markov.js:30-36 | the chain keeps a matrix that passed the exact check |
| Markov.NewMarkovChain | markov.js:30-36 | a chain exists iff every row sums exactly to 0 or 1; otherwise the error carries the first failing row |
| Markov.MarkovChain.NewState | markov.js:42-62 | a state without a row throws; otherwise the state is the first index whose cumulative probability exceeds `r`, or `awaiting` when none does; the hint is Ninety iff the state is a sharp-turn state, else Small iff the row allows a rotation, else Zero |
| Markov.SampledHasPositiveProbability | markov.js:47-53 | whenever the walk picks an index, `awaiting` included, the result is that index and its probability is positive |
| Markov.ZeroRowGivesAwaiting | markov.js:43-53 | an all-zero row yields `awaiting`, not the current state |
| Markov.ShippedPassesExactCheck | markov.js:125-144 | the shipped matrix passes the exact check |
| Markov.ShippedSampleInRange | markov.js:125-144 | with the shipped matrix, every sample is a state of the enumeration |
| Markov.StochasticSampleInRange | markov.js:47-53 | with any stochastic matrix, every sample is a state of the enumeration |
| Markov.SolveCurStateConflict | markov.js:68-104 | a falsy argument throws; otherwise the first present `oneStates` member wins; then `chargingNeeded` with `seeingChgStationAhead` gives the station state and `chargingNeeded` alone gives itself; the station state alone throws; otherwise `states[0]`, undefined iff the list is empty; a resolved state is always one of the input |
| TestUtils.ClassifyObject | robot-test/utils.js:58-64 | an orb below 0.8 means collecting, below 1.5 proximal, and otherwise ahead; each band holds iff its state is chosen |
| TestUtils.ClassifyObstacle | robot-test/utils.js:82-88 | an obstacle below 1.0 means a collision, below 1.5 proximal, and otherwise ahead; each band holds iff its state is chosen |
| TestUtils.NearestSeen | robot-test/utils.js:49-57 | the distance of the nearest orb any ray sees within 3, attained by some ray and no larger than any other; `None` iff no ray sees one |
| TestUtils.FirstObstacleRay | robot-test/utils.js:69-80 | the first ray that sees an obstacle or wall within 3; `None` iff no ray does |
| TestUtils.DetectionShape | robot-test/utils.js:49-91 | the report has at most one state, and only sensed states (no movement, charging or station state); it is empty iff no ray sees anything within range; an orb in range makes it an orb state |
| TestUtils.CollectibleMasksObstacles | robot-test/utils.js:55-69 | an orb within range on any ray makes the report a single orb state, hiding every obstacle |
| TestUtils.EnvironmentSensor.constructor | robot-test/utils.js:5-12 | the collected count starts at 0 |
| TestUtils.EnvironmentSensor.DetectStates | robot-test/utils.js:25-106 | the loop's list equals `Detection` of the rays: at most one state, only sensed states |
| TestUtils.EnvironmentSensor.CollectOrb | robot-test/utils.js:118-123 | a visible orb is hidden and the count rises by 1; an invisible one changes nothing; afterwards the orb is hidden |
| TestUtils.CollectOrbTwice | robot-test/utils.js:118-123 | collecting the same orb twice counts it at most once |
| TestUtils.CheckBoundaryCollision | robot-test/utils.js:125-135 | a collision iff x or z lies strictly outside [-15, 15] |
| TestUtils.SolveCurStateConflict | robot-test/utils.js:138-165 | null iff the list is empty; a result is always one of the input |
| TestUtils.SolveFollowsConflictOrder | robot-test/utils.js:141-165 | the first present of collision, proximal obstacle, obstacle ahead, collecting, proximal orb and orb ahead wins; otherwise `states[0]` |
| TestUtils.ResolutionIgnoresOrder | robot-test/utils.js:141-163 | when a sensed state is present, the result does not depend on order or repetition |
| World.Hidden | utils.js:239 | hiding an orb changes only its visibility, and nothing else in the scene |
| World.Nearest | utils.js:358-373 | the nearest candidate of the searched kind (a visible orb, any charging station, or a visible obstacle or wall), no farther than any other, with ties going to the first; `None` iff there is no candidate |
| World.FindNearest | utils.js:309-324 | the min-accumulator loop over the scene ends with `Nearest`, and so with the nearest candidate or none |
| World.FirstMatching | robot-test/main.js:302 | `find` returns the first matching entity, and `None` iff none matches |
| Controller.Note | utils.js:112-141 | one ray adds the proximal state iff its hit is below 1.5, and the ahead state iff its hit lies in [1.5, 4] and the proximal state is not there yet; no duplicates |
| Controller.ClassifyRays | utils.js:88-156 | the set holds no duplicates and only the four sight states; "proximal" iff some ray hit closer than 1.5; "ahead" iff some ray hit within range before any ray was proximal |
| Controller.ClassificationIsDetermined | utils.js:88-156 | two classifications of the same rays hold the same states |
| Controller.ProximalOrbIsReported | utils.js:116-117 | an orb closer than 1.5 on any ray always raises `seeingObjProximal` |
| Controller.ForwardBlockStopsTheRobot | utils.js:172-304 | in a state that moves only when the forward ray is clear, a ray hitting an obstacle or wall closer than 1.0 leaves the position unchanged; `movingFwd` turns into `collisionDetected` exactly when blocked, and otherwise takes the guarded step |
| Controller.CheckBoundaryCollision | utils.js:409-418 | a collision iff x or z lies strictly outside [-14, 14] |
| Controller.RobotController.constructor | utils.js:20-31 | no orbs collected, the last check at 0, and the timestamp set to the clock |
| Controller.RobotController.DetectStates | utils.js:78-156 | within 100 ms of the last check it returns null and writes nothing; otherwise it records the clock and returns a classification of the rays |
| Controller.RobotController.MoveTo | utils.js:390-400 | the position is written only when the next position stays inside the ±14 square |
| Controller.RobotController.Collect | utils.js:224-247 | with no visible orb, `awaiting`; otherwise a step toward the nearest orb if inside the bounds, and a pickup below 0.5 that hides exactly that orb, counts 1 and returns `collectingObjFinished` |
| Controller.RobotController.MoveRobot | utils.js:160-307 | after more than 2000 ms: `awaiting`, the timestamp reset, and nothing moved; otherwise the timestamp is untouched; the returned state follows the five leaving cases and is otherwise the input; a pickup hides exactly the nearest orb and counts once; the only position write is the guarded step, so a robot inside ±14 stays inside |
| Controller.RobotController.Act | utils.js:172-306 | the case of the switch for each state: the next state, the scene and count changes, the guarded position, and the turn sign (left iff the left clearance is greater, for `seeingObstacleProximal`) |
| MainLoop.DeltaTime | main.js:107 | the frame time in seconds, capped at 0.1 |
| MainLoop.Drained | main.js:144 | energy after a drain is `max(0, e - amount)` |
| MainLoop.Override | main.js:114-122 | the first state in `statePriority` order that was sensed; none with a null or empty detection, or when no listed state was sensed |
| MainLoop.OverrideIgnoresOrder | main.js:114-122 | the override depends only on which states were sensed |
| MainLoop.OverrideOfClassification | main.js:56-63 | on what utils.js senses: a proximal orb, then a proximal obstacle, then an orb ahead, then an obstacle ahead |
| MainLoop.FindOverride | main.js:115-121 | the `for … break` loop yields `Override` |
| MainLoop.Resample | main.js:126-127 | a re-sample on a stochastic matrix is the state the cumulative walk picks |
| MainLoop.ResampleFollowsAnEdge | main.js:137-138 | a re-sample with a draw in [0, 1) moves along an edge of positive probability |
| MainLoop.Simulation.constructor | main.js:44-53 | unpaused, speed 1, both timestamps on the clock, `awaiting`, energy 100, not over |
| MainLoop.Simulation.TogglePause | main.js:67-70 | pausing flips the flag; resuming restarts the frame clock |
| MainLoop.Simulation.SetSpeed | main.js:71 | the speed is set |
| MainLoop.Simulation.NextSample | main.js:137-138 | `newState(s).state` equals `Resample` |
| MainLoop.Simulation.DecideState | main.js:108-130 | an override wins; otherwise the chain is sampled only after 100 ms, and only then is `lastStateUpdateTime` reset |
| MainLoop.Simulation.ApplyMove | main.js:133-140 | a state returned by `moveRobot` that differs and is not in `statePriority` is re-sampled at once; the returned state, the robot's position, the scene and the orb count are those `moveRobot` promises for the state it was called with and the old controller fields; the timeout stamp is reset exactly after 2000 ms |
| MainLoop.Simulation.DrainEnergy | main.js:142-149 | outside `charging`, energy drops to `max(0, e - 0.5 dt speed)`; the game is over iff energy is 0 |
| MainLoop.Simulation.SenseAndMove | main.js:108-140 | the decision, then the move, then the re-sample: the decided state as `DecideState`, the moved state, position, scene and count as `moveRobot` promises for it, and both timestamps (`lastStateCheck` after 100 ms, `lastStateChangeTime` after 2000 ms) |
| MainLoop.Simulation.Tick | main.js:106-157 | a running frame: the override or timed sample, the move with its position, scene and count effects and the re-sample, both timestamps, the clamped drain, game over iff energy is 0, the clock recorded; energy never rises when the clock does not run backwards |
| MainLoop.Simulation.Animate | main.js:102-161 | a paused or finished game changes nothing; game over latches; otherwise as `Tick`, including the move's effects on position, scene and count |
| TestMain.DrainPerTick | robot-test/main.js:310-318 | the drain table: 0.05 iff moving forward or back, 0.03 iff rotating, 0.02 otherwise |
| TestMain.AfterCollection | robot-test/main.js:99-110 | every visible orb within 1.0 becomes hidden, and nothing else changes |
| TestMain.CollectionConservesOrbs | robot-test/main.js:99-110 | the visible orbs drop by exactly the number counted |
| TestMain.ChainStep | robot-test/main.js:353 | on a validated matrix, `newState` never throws for a state, and the result and the new timestamp are those of `Step` |
| TestMain.Simulation.constructor | robot-test/main.js:42-56 | unpaused, speed 1, `awaiting`, energy 100, movement complete with no target |
| TestMain.Simulation.TogglePause | robot-test/main.js:59-65 | pausing flips the flag; resuming restarts the frame clock |
| TestMain.Simulation.SetSpeed | robot-test/main.js:66-68 | the speed is set, and the invariant is kept |
| TestMain.Simulation.CheckCollectibles | robot-test/main.js:99-110 | the scene becomes `AfterCollection`, and the count rises by exactly the number of orbs hidden |
| TestMain.Simulation.Translate | robot-test/main.js:119-181 | a target is set when starting; the robot steps if the target is beyond one step, or snaps onto it, only inside the bounds, collecting orbs after a move; snapping or a blocked step always clears the flag and the target; every other part of the simulation is unchanged (`TranslateSpec`) |
| TestMain.Simulation.Turn | robot-test/main.js:137-195 | a quarter-turn target is set when starting; the turn completes iff the target is within one angular step; every other part of the simulation is unchanged (`TurnSpec`) |
| TestMain.Simulation.Avoid | robot-test/main.js:201-261 | when starting, a turn is aimed only if there is a visible obstacle or wall; with no target the movement completes at once; every other part of the simulation is unchanged (`AvoidSpec`) |
| TestMain.Simulation.PickUp | robot-test/main.js:290-295 | the orb is hidden, counted once, and the state becomes `collectingObjFinished` with the flag complete |
| TestMain.Simulation.ApproachOrb | robot-test/main.js:265-298 | a step toward the nearest visible orb if inside the bounds; a pickup below 1.0 as `PickUp`, and nothing else otherwise; every other part of the simulation is unchanged (`ApproachSpec`) |
| TestMain.Simulation.Charge | robot-test/main.js:300-307 | within 2.0 of the first charging station, `min(100, e + 0.2 speed)`; energy never decreases; the flag is complete; every other part of the simulation is unchanged (`ChargeSpec`) |
| TestMain.Simulation.Drain | robot-test/main.js:309-319 | outside `charging`, energy drops by the table value times the speed, floored at 0, and nothing else changes (`DrainSpec`) |
| TestMain.Simulation.Act | robot-test/main.js:118-307 | the state, flag, targets, energy, position, scene and count after the case for the state are exactly `ActSpec` of those before: the translation, turn, collision, avoidance, orb and charging cases, and no change in the others; the movement-consistency invariant is kept |
| TestMain.Simulation.MoveRobot | robot-test/main.js:112-322 | the new values are `MoveSpec` of the old: `Act`, then the drain by the state's table entry, floored at 0; energy in [0, 100], never lower in `charging` and never higher outside it; visible plus collected orbs constant; the state changes only on a pickup; the flag is returned |
| TestMain.MoveEnergy | robot-test/main.js:300-319 | the energy after one call is the charge in `charging` and the floored table drain in every other state |
| TestMain.MoveKeepsEnergyInRange | robot-test/main.js:300-319 | one call keeps energy in [0, 100]; in `charging` it never decreases; otherwise it is exactly `max(0, e - drain(state) speed)` |
| TestMain.MoveChangesStateOnlyOnPickup | robot-test/main.js:265-298 | the state of one call is unchanged unless an orb state picks up, which finishes the collection and counts one orb |
| TestMain.MoveConservesOrbs | robot-test/main.js:99-298 | visible orbs plus collected orbs are the same before and after one call |
| TestMain.HiddenVisibleOrbs | robot-test/main.js:290-295 | hiding a visible orb lowers the visible count by exactly one |
| TestMain.MoveFrame | robot-test/main.js:118-307 | only translations, orb states and `collisionDetected` move the robot or touch the scene; the collision case steps back within the bounds; the waiting and station states leave the flag and the targets alone |
| TestMain.Simulation.Rechoose | robot-test/main.js:343-354 | the state is re-chosen as `ChooseState` once the movement is complete and kept otherwise; nothing else that `moveRobot` reads changes; the chain's `lastStateChangeTime` is unchanged while a movement is in progress or when a detection overrides, and otherwise is the timestamp of the Markov step; the branch for an unfinished `collectingObj` is excluded by the invariant |
| TestMain.Simulation.Update | robot-test/main.js:343-366 | the state handed to `moveRobot` is the re-chosen one; the new values are `MoveSpec` of the old ones with that state; the state changes afterwards only on a pickup; the chain's `lastStateChangeTime` moves only on a Markov step taken at rest, to that step's timestamp; the update time is recorded |
| TestMain.Simulation.ChooseState | robot-test/main.js:347-354 | a resting robot takes the resolved detection if there is one, leaving the chain's `lastStateChangeTime` alone, and otherwise a Markov step, whose timestamp the chain keeps |
| TestMain.Simulation.Animate | robot-test/main.js:328-371 | nothing happens while paused, over or within 100 ms divided by the speed since the last update; game over at the start of a tick with energy at most 0, with no further update and nothing else changed; otherwise the state is replaced only when the movement is complete, and the new values are `MoveSpec` of the old ones with that state; the chain's `lastStateChangeTime` changes only on a Markov step taken at rest, to that step's timestamp; the unreachable branch at 344-346 is excluded by the invariant |
| Decision.Priority | decisionModel.js:34-40 | exactly the five `PRIORITY` keys have a priority, from 1 to 5 |
| Decision.Compare | decisionModel.js:43 | on two prioritized states the comparator's sign is the order of their priorities, and it is 0 exactly for the same state; 0 (`NaN`) when either has none |
| Decision.CompareAntisymmetric | decisionModel.js:43 | swapping the arguments negates the comparator |
| Decision.CompareTransitive | decisionModel.js:43 | on prioritized states the comparator is transitive, both weakly and strictly |
| Decision.NaNBreaksTransitivity | decisionModel.js:34-43 | a state without a priority ties with `chargingNeeded` and `movingFwd`, which do not tie with each other |
| Decision.Sink | decisionModel.js:43 | one insertion pass keeps the array a permutation and extends the sorted prefix by one |
| Decision.ResolveStateConflict | decisionModel.js:33-44 | the caller's array is sorted in place into a permutation of itself, sorted by priority when every state has one; the result is its first element, undefined when empty |
| Decision.SortedHeadIsMinimum | decisionModel.js:43 | the head of a sorted permutation is an input state of least priority |
| Decision.Decide | decisionModel.js:57-75 | `awaiting` leads to `movingFwd`; `movingFwd` leads to `collectingObj` if an orb is ahead, else to itself; `chargingNeeded` leads to `rotatingLeft` at pi/8; the station ahead leads to decelerating; every other state to itself at speed 0 |
| Decision.DecisionModel.constructor | decisionModel.js:24-26 | the current state is `awaiting` |
| Decision.DecisionModel.GetNextState | decisionModel.js:52-76 | `Decide` of the sorted head; `currentState` is not read; on prioritized input the array ends sorted and the decision follows the most urgent state present: `chargingNeeded`, then `seeingChgStationAhead`, `seeingObstacleAhead`, `collectingObj`, and `movingFwd` otherwise |
| Decision.DecisionOnPrioritizedInput | test-old-markov/robot.js:33-76 | on states drawn from the `PRIORITY` keys, the decision follows the most urgent one present |
| Histogram.HitsSumToDraws | test-old-markov/robot.js:15-19 | the buckets of the histogram sum to the number of draws |
| Histogram.ImpossibleSuccessorsNeverCounted | test-old-markov/robot.js:17-18 | a state the `movingFwd` row gives probability 0 is never counted |
| Histogram.Tally | test-old-markov/robot.js:15-19 | the array starts at `matrix.length` zeros and ends holding each state's count |
| Histogram.RunHistogram | test-old-markov/robot.js:13-23 | the shipped matrix builds a chain, so the `catch` is never reached, and the 1000 counts sum to 1000 |
| Environment.CellAt | environment.js:17-22 | cell (r, c) spans grid lines c to c + 1 across and r to r + 1 deep |
| Environment.RowCells | environment.js:16-23 | the inner loop yields one row's cells from left to right |
| Environment.GenerateGrid | environment.js:10-27 | the nested loops build exactly `Grid`, and nothing when a count is not positive |
| Environment.GridIsRowMajor | environment.js:15-24 | the grid has rows x cols cells, and cell (r, c) sits at index r * cols + c |
| Environment.NeighboursShareEdges | environment.js:17-22 | neighbouring cells share their edges |
| Environment.GridTilesBounds | environment.js:11-22 | the outer cells reach the bounds exactly, and every cell lies inside them |
| Placement.PositionInCell | environment.js:3-8 | for draws in [0, 1): x in [minX + padding, maxX - padding), z likewise, y = 0 |
| Placement.CellIndexInRange | environment.js:106 | `floor(r * n)` is a valid cell index for a draw in [0, 1) |
| Placement.PickFreeCell | environment.js:104-107 | the do-while loop stops at the first unused cell drawn, and every earlier draw hit a used cell; running out of draws is reported; both agree with `FirstFreeDraw` |
| Placement.PlaceOne | environment.js:103-113 | one placement lands in an unused cell, inside its padded interior, at the given height; its cell is the first free draw and its position uses the next two draws; it fails exactly when the draws are `Starved`; the outcome is exactly `PlaceStep` |
| Placement.PlaceGroup | environment.js:102-118 | every placement of a group is of its kind, in a fresh cell, distinct from the others, and the used set grows by one per placement; the outcome is exactly `GroupFrom`: the placements and the cursor after them, or failure exactly when one placement of the loop, from the cursor and used cells it reached, is starved |
| Placement.PlaceOnGrid | environment.js:102-146 | six pillars at height 2, then eight orbs at height 1, all in distinct cells and inside them; the outcome is exactly `Layout`: the pillar group from the first draw, then the orb group from where it stopped, avoiding the pillars' cells |
| Placement.PlaceArenaObjects | environment.js:88-146 | the same on the 4 x 4 grid over [-14, 14], and exactly `Layout` of that grid |
| Placement.ArenaCellsAreRoomy | environment.js:50-55 | the ±14 bounds split 4 x 4 give 16 cells, each wider than twice the default padding of 1 on both axes, so a jittered position stays inside its cell |
| Placement.PlaceStep | environment.js:103-113 | one loop iteration as a function: it fails exactly when the draws are `Starved`; otherwise it places in an unused cell, inside it, and moves the cursor forward |
| Placement.GroupFromSucceeds | environment.js:102-118 | a group succeeds, with three draws per placement and the i-th placement in the cell of the i-th third draw, whenever those draws hit distinct cells not used before |
| Placement.LayoutSucceeds | environment.js:102-131 | 42 draws whose every third one hits a different cell always produce a layout |
| Placement.StarvedIff | environment.js:103-113 | placement from a cursor fails exactly when every draw that still has two draws after it hits a used cell |
| Placement.FreeCellExists | environment.js:104-107 | while fewer cells are used than exist, a free one exists |
| Placement.ArenaHasRoom | environment.js:89-131 | with fewer than 6 + 8 cells used of the 16, a free cell exists, so each rejection loop can end |
| Randomization.RandomPosition | utils/randomization.js:1-7 | for draws in [0, 1): x in [-width/2, width/2), z in [-height/2, height/2), y = 0 |
| Randomization.RandomizeObjects | utils/randomization.js:9-15 | exactly `objectCount` positions, or none when it is not positive; the i-th from the i-th pair of draws, and each inside the rectangle |
| Resolvers.MarkovOrbAheadFirst | markov.js:73-87 | an orb ahead wins over everything but a collision, including a proximal obstacle |
| Resolvers.MarkovCollectingBeforeObstacles | markov.js:73-87 | collecting wins over every obstacle state except a collision |
| Resolvers.OverrideCollectingFirst | main.js:56-63 | collecting wins over everything but a collision |
| Resolvers.OverrideOrbProximalBeforeObstacles | main.js:56-63 | a proximal orb wins over every obstacle state except a collision |
| Resolvers.OverrideObstacleProximalBeforeOrbAhead | main.js:56-63 | a proximal obstacle wins over an orb that is only ahead |
| Resolvers.TestResolverOnConflicts | robot-test/utils.js:141-163 | on the three pairs where the orders disagree, the robot-test resolver picks the obstacle |
| Resolvers.SortOnConflict | decisionModel.js:34-43 | the priority sort puts the obstacle ahead first in the pair with collecting |
| Resolvers.SingleState | markov.js:89-102 | a single sensed state: robot-test returns it, main.js overrides only with a `statePriority` member, and markov.js throws on a lone `seeingChgStationAhead` |

## Left out

- Three.js scenes, meshes, materials, lights, camera, renderer and orbit controls (robot.js, robot-test/robot.js, robot-test/environment.js, the mesh parts of `createEnvironment`, the set-up of both main files). They render and have no behaviour to state.
- Ray casting and vector and quaternion arithmetic (`intersectObjects`, `applyQuaternion`, `slerp`, `angleTo`, `normalize`, `distanceTo`). They are floating-point geometry in a foreign library. They become inputs: hit distances, a forward hit, side clearances, the candidate step, distances after the step and "beyond one step" flags.
- Rotation and translation amounts (speed x deltaTime, the pi-based angles). Only the sign of a turn and whether a move happens are modelled. `TestMain.Simulation.Turn` therefore tracks the rotation target only as present or absent.
- robot-test/ui.js, the UI updates and the end screens. They are DOM only.
- `checkStateTransitions` and every `console.log`. They only log.
- `requestAnimationFrame`, the resize and keydown listeners, and the pause-button synchronisation. These are event wiring. The callbacks themselves are modelled (`TogglePause`, `SetSpeed`).
- The dead top-level code of robot-test/robot.js. It references undefined names and throws on its first statement.
- Module linking. Each main file is modelled as wired to the chain of its own directory, although the imported class names do not match the exported ones. test-old-markov/robot.js imports a markov.js that is not part of this model; the histogram runs on the markov.js chain and the shipped matrix. ui.js is not part of this model.
- Each chain's constructor with a matrix that fails the check. `NewMarkovChain` models the throw as an `Err` result, and the class constructors take the checked matrix.
- Floating-point sums. Row sums are exact reals. In IEEE doubles, markov.js's exact `sum != 1` test may reject rows that sum to 1 only in real arithmetic.
- The empirical frequencies of `Math.random()`. Every draw is a parameter.
- The unbounded `do … while` loops of `createEnvironment`. They are modelled over a finite sequence of draws, and running out of draws is an explicit outcome. `ArenaHasRoom` shows that each loop starts with a free cell, and `LayoutSucceeds` that the layout is produced when the draws hit distinct cells. The model does not show that a given random stream reaches a free cell.
- `Randomization.RandomizeObjects`: it requires two draws per object, since `Math.random()` is passed in as a sequence.
- The number of rays (five in utils.js, seven in robot-test/utils.js). Both sensors take any sequence of rays.
- `Decision.ResolveStateConflict`: it promises a sorted result only when every state has a `PRIORITY` entry. With the `NaN` comparator the engine's sort order is not a ranking; the model sorts with an insertion sort that treats `NaN` as 0.
- `Decision.GetNextState`: the angular speed is the tag `Straight | EighthTurn`, standing for 0 and pi/8.
- `Markov.MarkovChain.NewState`: the angle hint is the tag `Zero | Small | Ninety`, standing for 0, pi/180 and pi/2.
- `MainLoop.Simulation.Tick`: it promises that energy never rises only when the frame clock does not run backwards and the speed is not negative. With a negative `deltaTime` the source adds energy.
