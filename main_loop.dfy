/** main.js: one animation frame of the main robot. Sensed states override
    the Markov chain by a fixed priority; otherwise the chain is sampled at
    most every 100 ms; the controller then moves the robot, and a state it
    returns that is not a sensed state is re-sampled at once. Energy drains
    outside `charging` and the game ends when it reaches zero. */
module MainLoop {
  import opened Wrappers
  import opened StateSpace
  import opened World
  import opened Markov
  import opened Controller

  const StateUpdateInterval: real := 100.0
  const MaxDeltaTime: real := 0.1
  const DrainRate: real := 0.5
  const FullEnergy: real := 100.0

  /** `statePriority`: the order in which sensed states take over. */
  const StatePriority: seq<State> :=
    [CollisionDetected, CollectingObj, SeeingObjProximal,
     SeeingObstacleProximal, SeeingObjAhead, SeeingObstacleAhead]

  /** `Math.min((currentTime - lastUpdateTime) / 1000, 0.1)`, in seconds. */
  function DeltaTime(now: real, last: real): (dt: real)
    ensures dt <= MaxDeltaTime && dt <= (now - last) / 1000.0
    ensures dt == MaxDeltaTime || dt == (now - last) / 1000.0
  {
    if (now - last) / 1000.0 < MaxDeltaTime then (now - last) / 1000.0 else MaxDeltaTime
  }

  /** `Math.max(0, energy - amount)`. */
  function Drained(energy: real, amount: real): (e: real)
    ensures e >= 0.0 && e >= energy - amount
    ensures e == 0.0 || e == energy - amount
  {
    if energy - amount > 0.0 then energy - amount else 0.0
  }

  lemma NonNegativeDrain(deltaTime: real, speed: real)
    requires deltaTime >= 0.0 && speed >= 0.0
    ensures DrainRate * deltaTime * speed >= 0.0
  {
    assert deltaTime * speed >= 0.0;
  }

  /** The first state of `statePriority` among the sensed ones, if any were sensed. */
  function Override(detected: Option<seq<State>>): (s: Option<State>)
    ensures s.Some? ==> detected.Some? && s.value in detected.value && s.value in StatePriority
    ensures s.None? <==> detected.None? || forall x :: x in StatePriority ==> x !in detected.value
  {
    if detected.Some? && |detected.value| > 0 then FirstPresent(StatePriority, detected.value) else None
  }

  /** `robotMarkovChain.newState(s).state` on a stochastic matrix such as
      the shipped one. */
  function Resample(m: seq<seq<real>>, s: State, r: real): (t: State)
    requires Stochastic(m)
    ensures Index(t) == SampledIndex(m[Index(s)], r)
  {
    StochasticSampleInRange(m, Index(s), r);
    IndexOfAll(SampledIndex(m[Index(s)], r));
    All[SampledIndex(m[Index(s)], r)]
  }

  /** With a draw in [0, 1), a re-sample always moves along an edge of
      positive probability. */
  lemma ResampleFollowsAnEdge(m: seq<seq<real>>, s: State, r: real)
    requires Stochastic(m) && 0.0 <= r < 1.0
    ensures m[Index(s)][Index(Resample(m, s, r))] > 0.0
  {
    StochasticSample(m, Index(s), r);
  }

  /** The priority only depends on which states were sensed. */
  lemma OverrideIgnoresOrder(a: seq<State>, b: seq<State>)
    requires forall x :: x in a <==> x in b
    ensures Override(Some(a)) == Override(Some(b))
  {
    FirstPresentBySet(StatePriority, a, b);
  }

  /** What the override is for the sets utils.js builds: `collisionDetected`
      and `collectingObj` are never sensed, so a proximal orb wins, then a
      proximal obstacle, then an orb ahead, then an obstacle ahead. */
  lemma OverrideOfClassification(rays: seq<Ray>, states: seq<State>)
    requires IsClassification(rays, states)
    ensures Override(Some(states)) ==
      if AnyProximal(rays, true) then Some(SeeingObjProximal)
      else if AnyProximal(rays, false) then Some(SeeingObstacleProximal)
      else if AheadBeforeProximal(rays, true) then Some(SeeingObjAhead)
      else if AheadBeforeProximal(rays, false) then Some(SeeingObstacleAhead)
      else None
  {
    var p := StatePriority;
    assert p[0] !in states && p[1] !in states;
    if p[2] in states { FirstPresentAt(p, states, 2); }
    else if p[3] in states { FirstPresentAt(p, states, 3); }
    else if p[4] in states { FirstPresentAt(p, states, 4); }
    else if p[5] in states { FirstPresentAt(p, states, 5); }
  }

  /** The `for (const state of statePriority)` loop of `animate`. */
  method FindOverride(detected: Option<seq<State>>) returns (winner: Option<State>)
    ensures winner == Override(detected)
  {
    winner := None;
    if detected.Some? && |detected.value| > 0 {
      var i := 0;
      while i < |StatePriority|
        invariant 0 <= i <= |StatePriority|
        invariant forall j :: 0 <= j < i ==> StatePriority[j] !in detected.value
      {
        if StatePriority[i] in detected.value {
          FirstPresentAt(StatePriority, detected.value, i);
          return Some(StatePriority[i]);
        }
        i := i + 1;
      }
    }
  }

  class Simulation {
    const controller: RobotController
    const chain: MarkovChain
    var isPaused: bool
    var simulationSpeed: real
    var lastUpdateTime: real
    var lastStateUpdateTime: real
    var currentState: State
    var energy: real
    var isGameOver: bool

    /** The chain runs on a stochastic matrix (the shipped one, from the
        constructor); energy is never negative and is positive until the
        game is over. */
    ghost predicate Valid()
      reads this
    {
      Stochastic(chain.transitionMatrix) &&
      0.0 <= energy && (!isGameOver ==> energy > 0.0)
    }

    /** The module-level set-up of main.js at clock `now`. */
    constructor (controller: RobotController, chain: MarkovChain, now: real)
      requires chain.transitionMatrix == Shipped
      ensures Valid()
      ensures this.controller == controller && this.chain == chain
      ensures !isPaused && simulationSpeed == 1.0 && lastUpdateTime == now && lastStateUpdateTime == now
      ensures currentState == Awaiting && energy == FullEnergy && !isGameOver
    {
      ShippedStochastic();
      this.controller := controller;
      this.chain := chain;
      isPaused := false;
      simulationSpeed := 1.0;
      lastUpdateTime := now;
      lastStateUpdateTime := now;
      currentState := Awaiting;
      energy := FullEnergy;
      isGameOver := false;
    }

    /** The pause callback: resuming restarts the frame clock. */
    method TogglePause(now: real)
      modifies this`isPaused, this`lastUpdateTime
      ensures isPaused == !old(isPaused)
      ensures lastUpdateTime == if isPaused then old(lastUpdateTime) else now
    {
      isPaused := !isPaused;
      if !isPaused {
        lastUpdateTime := now;
      }
    }

    /** The speed callback. */
    method SetSpeed(speed: real)
      modifies this`simulationSpeed
      ensures simulationSpeed == speed
    {
      simulationSpeed := speed;
    }

    /** `robotMarkovChain.newState(s).state`. */
    method NextSample(s: State, r: real) returns (t: State)
      requires Valid()
      ensures t == Resample(chain.transitionMatrix, s, r)
    {
      var nextStateData := chain.NewState(Index(s), r);
      StochasticSampleInRange(chain.transitionMatrix, Index(s), r);
      t := All[nextStateData.value.state];
    }

    /** The first half of `animate`: sense, let the priority override the
        state, otherwise sample the chain once 100 ms have passed. */
    method DecideState(now: real, rays: seq<Ray>, r1: real) returns (ghost detected: Option<seq<State>>)
      requires Valid()
      modifies this`currentState, this`lastStateUpdateTime, controller`lastStateCheck
      ensures Valid()
      ensures var override := Override(detected);
        var sampled := override.None? && now - old(lastStateUpdateTime) >= StateUpdateInterval;
        (detected.None? <==> now - old(controller.lastStateCheck) < StateCheckInterval) &&
        (detected.Some? ==> IsClassification(rays, detected.value)) &&
        currentState == (if override.Some? then override.value
                         else if sampled then Resample(chain.transitionMatrix, old(currentState), r1)
                         else old(currentState)) &&
        lastStateUpdateTime == (if sampled then now else old(lastStateUpdateTime))
      ensures controller.lastStateCheck ==
                if now - old(controller.lastStateCheck) < StateCheckInterval then old(controller.lastStateCheck) else now
    {
      var stateUpdateDelta := now - lastStateUpdateTime;
      var detectedStates := controller.DetectStates(now, rays);
      detected := detectedStates;
      var winner := FindOverride(detectedStates);
      var environmentOverride := winner.Some?;
      if environmentOverride {
        currentState := winner.value;
      }
      if !environmentOverride && stateUpdateDelta >= StateUpdateInterval {
        currentState := NextSample(currentState, r1);
        lastStateUpdateTime := now;
      }
    }

    /** The middle of `animate`: run `moveRobot` and re-sample a returned
        state that is not a sensed state. */
    method ApplyMove(now: real, sight: Sight, r2: real) returns (ghost moved: State)
      requires Valid()
      requires |sight.distBefore| == |controller.scene.entities| && |sight.distAfter| == |controller.scene.entities|
      modifies this`currentState, controller`lastStateChangeTime, controller`collectedOrbs,
               controller.robot`position, controller.scene`entities
      ensures Valid()
      ensures currentState == if moved != old(currentState) && moved !in StatePriority then Resample(chain.transitionMatrix, moved, r2) else moved
      ensures controller.lastStateChangeTime ==
                if now - old(controller.lastStateChangeTime) > StateTimeoutDuration then now else old(controller.lastStateChangeTime)
      ensures NextStateRule(old(currentState), now, old(controller.lastStateChangeTime), sight,
                            old(controller.scene.entities), moved)
      ensures EffectRule(old(currentState), now, old(controller.lastStateChangeTime), sight,
                         old(controller.scene.entities), old(controller.collectedOrbs), old(controller.robot.position),
                         moved, controller.scene.entities, controller.collectedOrbs, controller.robot.position)
    {
      var resultState, _ := controller.MoveRobot(currentState, now, sight);
      moved := resultState;
      if resultState != currentState {
        currentState := resultState;
        if resultState !in StatePriority {
          currentState := NextSample(currentState, r2);
        }
      }
    }

    /** The energy part of `animate`: drain outside `charging`, and end the
        game when the battery is empty. */
    method DrainEnergy(deltaTime: real)
      requires Valid() && !isGameOver
      modifies this`energy, this`isGameOver
      ensures Valid()
      ensures energy == if currentState == Charging then old(energy)
                        else Drained(old(energy), DrainRate * deltaTime * simulationSpeed)
      ensures isGameOver <==> energy == 0.0
      ensures deltaTime >= 0.0 && simulationSpeed >= 0.0 ==> energy <= old(energy)
    {
      if deltaTime >= 0.0 && simulationSpeed >= 0.0 {
        NonNegativeDrain(deltaTime, simulationSpeed);
      }
      if currentState != Charging {
        energy := Drained(energy, DrainRate * deltaTime * simulationSpeed);
        if energy <= 0.0 && !isGameOver {
          isGameOver := true;
        }
      }
    }

    /** Sensing, deciding and moving: the part of `animate` before the
        energy update. */
    method SenseAndMove(now: real, rays: seq<Ray>, sight: Sight, r1: real, r2: real)
      returns (ghost detected: Option<seq<State>>, ghost decided: State, ghost moved: State)
      requires Valid()
      requires |sight.distBefore| == |controller.scene.entities| && |sight.distAfter| == |controller.scene.entities|
      modifies this`currentState, this`lastStateUpdateTime, controller`lastStateCheck,
               controller`lastStateChangeTime, controller`collectedOrbs,
               controller.robot`position, controller.scene`entities
      ensures Valid()
      ensures
        var override := Override(detected);
        var sampled := override.None? && now - old(lastStateUpdateTime) >= StateUpdateInterval;
        (detected.None? <==> now - old(controller.lastStateCheck) < StateCheckInterval) &&
        (detected.Some? ==> IsClassification(rays, detected.value)) &&
        decided == (if override.Some? then override.value
                    else if sampled then Resample(chain.transitionMatrix, old(currentState), r1)
                    else old(currentState)) &&
        lastStateUpdateTime == (if sampled then now else old(lastStateUpdateTime)) &&
        currentState == (if moved != decided && moved !in StatePriority then Resample(chain.transitionMatrix, moved, r2) else moved)

      ensures controller.lastStateChangeTime ==
                if now - old(controller.lastStateChangeTime) > StateTimeoutDuration then now else old(controller.lastStateChangeTime)
      ensures controller.lastStateCheck ==
                if now - old(controller.lastStateCheck) < StateCheckInterval then old(controller.lastStateCheck) else now
      ensures NextStateRule(decided, now, old(controller.lastStateChangeTime), sight,
                            old(controller.scene.entities), moved)
      ensures EffectRule(decided, now, old(controller.lastStateChangeTime), sight,
                         old(controller.scene.entities), old(controller.collectedOrbs), old(controller.robot.position),
                         moved, controller.scene.entities, controller.collectedOrbs, controller.robot.position)
    {
      detected := DecideState(now, rays, r1);
      decided := currentState;
      moved := ApplyMove(now, sight, r2);
    }

    /** The body of `animate` when the simulation runs. */
    method Tick(now: real, rays: seq<Ray>, sight: Sight, r1: real, r2: real)
      returns (ghost detected: Option<seq<State>>, ghost decided: State, ghost moved: State)
      requires Valid() && !isPaused && !isGameOver
      requires |sight.distBefore| == |controller.scene.entities| && |sight.distAfter| == |controller.scene.entities|
      modifies this, controller`lastStateCheck, controller`lastStateChangeTime, controller`collectedOrbs,
               controller.robot`position, controller.scene`entities
      ensures Valid()
      ensures
        var override := Override(detected);
        var sampled := override.None? && now - old(lastStateUpdateTime) >= StateUpdateInterval;
        (detected.None? <==> now - old(controller.lastStateCheck) < StateCheckInterval) &&
        (detected.Some? ==> IsClassification(rays, detected.value)) &&
        decided == (if override.Some? then override.value
                    else if sampled then Resample(chain.transitionMatrix, old(currentState), r1)
                    else old(currentState)) &&
        lastStateUpdateTime == (if sampled then now else old(lastStateUpdateTime)) &&
        currentState == (if moved != decided && moved !in StatePriority then Resample(chain.transitionMatrix, moved, r2) else moved) &&
        energy == (if currentState == Charging then old(energy)
                   else Drained(old(energy), DrainRate * DeltaTime(now, old(lastUpdateTime)) * simulationSpeed)) &&
        (isGameOver <==> energy == 0.0) &&
        lastUpdateTime == now &&
        isPaused == old(isPaused) && simulationSpeed == old(simulationSpeed)
      ensures now >= old(lastUpdateTime) && simulationSpeed >= 0.0 ==> energy <= old(energy)

      ensures controller.lastStateChangeTime ==
                if now - old(controller.lastStateChangeTime) > StateTimeoutDuration then now else old(controller.lastStateChangeTime)
      ensures controller.lastStateCheck ==
                if now - old(controller.lastStateCheck) < StateCheckInterval then old(controller.lastStateCheck) else now
      ensures NextStateRule(decided, now, old(controller.lastStateChangeTime), sight,
                            old(controller.scene.entities), moved)
      ensures EffectRule(decided, now, old(controller.lastStateChangeTime), sight,
                         old(controller.scene.entities), old(controller.collectedOrbs), old(controller.robot.position),
                         moved, controller.scene.entities, controller.collectedOrbs, controller.robot.position)
    {
      var deltaTime := DeltaTime(now, lastUpdateTime);
      detected, decided, moved := SenseAndMove(now, rays, sight, r1, r2);
      DrainEnergy(deltaTime);
      lastUpdateTime := now;
    }

    /** `animate(currentTime)` with clock `now`, this frame's rays and step
        geometry, and the draws of the two possible `newState` calls. The
        ghost outputs name the intermediate states: what the controller
        sensed, the state after the priority/Markov decision, and what
        `moveRobot` returned. */
    method Animate(now: real, rays: seq<Ray>, sight: Sight, r1: real, r2: real)
      returns (ghost detected: Option<seq<State>>, ghost decided: State, ghost moved: State)
      requires Valid()
      requires |sight.distBefore| == |controller.scene.entities| && |sight.distAfter| == |controller.scene.entities|
      modifies this, controller`lastStateCheck, controller`lastStateChangeTime, controller`collectedOrbs,
               controller.robot`position, controller.scene`entities
      ensures Valid()
      ensures old(isPaused) || old(isGameOver) ==>
                unchanged(this) && unchanged(controller) && unchanged(controller.robot) && unchanged(controller.scene)
      ensures !old(isPaused) && !old(isGameOver) ==>
        var override := Override(detected);
        var sampled := override.None? && now - old(lastStateUpdateTime) >= StateUpdateInterval;
        (detected.None? <==> now - old(controller.lastStateCheck) < StateCheckInterval) &&
        (detected.Some? ==> IsClassification(rays, detected.value)) &&
        decided == (if override.Some? then override.value
                    else if sampled then Resample(chain.transitionMatrix, old(currentState), r1)
                    else old(currentState)) &&
        lastStateUpdateTime == (if sampled then now else old(lastStateUpdateTime)) &&
        currentState == (if moved != decided && moved !in StatePriority then Resample(chain.transitionMatrix, moved, r2) else moved) &&
        energy == (if currentState == Charging then old(energy)
                   else Drained(old(energy), DrainRate * DeltaTime(now, old(lastUpdateTime)) * simulationSpeed)) &&
        (isGameOver <==> energy == 0.0) &&
        lastUpdateTime == now &&
        isPaused == old(isPaused) && simulationSpeed == old(simulationSpeed)
      ensures old(isGameOver) ==> isGameOver
      ensures now >= old(lastUpdateTime) && simulationSpeed >= 0.0 ==> energy <= old(energy)

      ensures !old(isPaused) && !old(isGameOver) ==>
                controller.lastStateChangeTime ==
                if now - old(controller.lastStateChangeTime) > StateTimeoutDuration then now else old(controller.lastStateChangeTime)
      ensures !old(isPaused) && !old(isGameOver) ==>
                controller.lastStateCheck ==
                if now - old(controller.lastStateCheck) < StateCheckInterval then old(controller.lastStateCheck) else now
      ensures !old(isPaused) && !old(isGameOver) ==>
                NextStateRule(decided, now, old(controller.lastStateChangeTime), sight,
                              old(controller.scene.entities), moved) &&
                EffectRule(decided, now, old(controller.lastStateChangeTime), sight,
                           old(controller.scene.entities), old(controller.collectedOrbs), old(controller.robot.position),
                           moved, controller.scene.entities, controller.collectedOrbs, controller.robot.position)
    {
      if isPaused || isGameOver {
        return None, currentState, currentState;
      }
      detected, decided, moved := Tick(now, rays, sight, r1, r2);
    }
  }
}
