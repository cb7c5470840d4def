/** robot-test/main.js: the test robot's frame loop. A movement started from
    a resting robot runs to completion over several ticks (a 2-unit move or
    a quarter turn); only a resting robot senses and decides its next state.
    Orbs are collected on the way, energy drains per tick by state and is
    restored at the charging station. */
module TestMain {
  import opened Wrappers
  import opened StateSpace
  import opened World
  import opened TestMarkov
  import opened TestUtils

  const BaseUpdateInterval: real := 100.0
  const CollectionRadius: real := 1.0
  const ChargingRadius: real := 2.0
  const ChargeRate: real := 0.2
  const FullEnergy: real := 100.0

  /** The geometry of one tick, computed by vector and quaternion arithmetic
      that is not modelled:
      - `target`: where a move started now would end (2 units, or 1 when decelerating);
      - `targetBeyondStep`: the move target is farther than one step;
      - `step`: the position one step toward the move target, backwards, or toward the nearest orb;
      - `rotationBeyondStep`: the rotation target is farther than one angular step;
      - `distBefore`, `distAfter`: robot-to-entity distances before the step and where the robot ends. */
  datatype Motion = Motion(target: Pos, targetBeyondStep: bool, step: Pos, rotationBeyondStep: bool,
                           distBefore: seq<real>, distAfter: seq<real>)

  predicate IsTranslation(s: State)
  {
    s == MovingFwd || s == MovingFwdDecelerate || s == MovingBack
  }

  predicate IsRotation(s: State)
  {
    s == RotatingLeft || s == RotatingRight
  }

  predicate IsAvoidance(s: State)
  {
    s == SeeingObstacleAhead || s == SeeingObstacleProximal
  }

  predicate IsOrbState(s: State)
  {
    s == SeeingObjAhead || s == SeeingObjProximal || s == CollectingObj
  }

  /** The `energyDrain` table, per tick at speed 1. */
  function DrainPerTick(s: State): (d: real)
    ensures 0.02 <= d <= 0.05
    ensures d == 0.05 <==> s == MovingFwd || s == MovingBack
    ensures d == 0.03 <==> IsRotation(s)
    ensures d == 0.02 <==> !(s == MovingFwd || s == MovingBack) && !IsRotation(s)
  {
    match s
    case MovingFwd | MovingBack => 0.05
    case RotatingLeft | RotatingRight => 0.03
    case _ => 0.02
  }

  lemma PositiveProduct(a: real, b: real)
    requires a > 0.0 && b > 0.0
    ensures a * b > 0.0
  {
  }

  /** Dropping by a positive amount, floored at 0, stays in [0, e] and
      lowers `e` unless it reaches 0. */
  lemma FlooredDrop(e: real, d: real)
    requires 0.0 <= e && d > 0.0
    ensures var r := if e - d > 0.0 then e - d else 0.0;
      0.0 <= r <= e && (r < e || r == 0.0)
  {
  }

  /** Entity `i` is a visible orb within the collection radius. */
  predicate Collected(es: seq<Entity>, dist: seq<real>, i: nat)
    requires |dist| == |es| && i < |es|
  {
    es[i].kind == Collectible && es[i].visible && dist[i] < CollectionRadius
  }

  /** The scene after `checkCollectibles`: every collected orb hidden. */
  function AfterCollection(es: seq<Entity>, dist: seq<real>): (r: seq<Entity>)
    requires |dist| == |es|
    ensures |r| == |es|
    ensures forall i :: 0 <= i < |es| && es[i].kind == Collectible && dist[i] < CollectionRadius ==> !r[i].visible
    ensures forall i :: 0 <= i < |es| && !Collected(es, dist, i) ==> r[i] == es[i]
  {
    seq(|es|, i requires 0 <= i < |es| => if Collected(es, dist, i) then es[i].(visible := false) else es[i])
  }

  /** The number of collected orbs among the first `n` entities. */
  function CollectedCount(es: seq<Entity>, dist: seq<real>, n: nat): nat
    requires |dist| == |es| && n <= |es|
  {
    if n == 0 then 0 else CollectedCount(es, dist, n - 1) + (if Collected(es, dist, n - 1) then 1 else 0)
  }

  /** The number of visible orbs among the first `n` entities. */
  function VisibleOrbs(es: seq<Entity>, n: nat): nat
    requires n <= |es|
  {
    if n == 0 then 0 else VisibleOrbs(es, n - 1) + (if es[n - 1].kind == Collectible && es[n - 1].visible then 1 else 0)
  }

  /** Every orb `checkCollectibles` counts disappears from the scene: the
      visible orbs drop by exactly the number counted. */
  lemma {:induction false} CollectionConservesOrbs(es: seq<Entity>, dist: seq<real>, n: nat)
    requires |dist| == |es| && n <= |es|
    ensures VisibleOrbs(AfterCollection(es, dist), n) + CollectedCount(es, dist, n) == VisibleOrbs(es, n)
  {
    if n > 0 {
      CollectionConservesOrbs(es, dist, n - 1);
    }
  }

  /** `robotMarkovChain.newState(s).state` on a validated matrix such as the
      shipped one, with the chain's timestamp after the call. */
  function ChainStep(m: seq<seq<real>>, s: State, last: real, now: real, r: real): (out: (State, real))
    requires Compiles(m)
    ensures Step(m, last, Index(s), now, r).0.Ok?
    ensures Index(out.0) == Step(m, last, Index(s), now, r).0.value.state
    ensures out.1 == Step(m, last, Index(s), now, r).1
  {
    InvalidStateThrows(m, last, Index(s), now, r);
    SampleInRange(m, last, Index(s), now, r);
    var (res, last') := Step(m, last, Index(s), now, r);
    IndexOfAll(res.value.state);
    (All[res.value.state], last')
  }

  // ---------------------------------------------------------------------------
  // One call of `moveRobot`, on values

  /** What one `moveRobot` call can change: the state, the movement flag, the
      move target, whether a rotation target is set, the energy, the robot's
      position, the scene's entities and the collected count. */
  datatype Body = Body(state: State, complete: bool, moveTarget: Option<Pos>, rotating: bool,
                       energy: real, position: Pos, entities: seq<Entity>, collected: int)

  /** The target of a translation: the one just set when starting, else the
      one in progress. */
  function TargetOf(b: Body, m: Motion): Pos
  {
    if b.complete || b.moveTarget.None? then m.target else b.moveTarget.value
  }

  /** The translation cases: step toward the target, or snap onto it; a
      blocked or finished move clears the flag and the target; every
      position change is followed by `checkCollectibles`. */
  function TranslateSpec(b: Body, m: Motion): (r: Body)
    requires |m.distAfter| == |b.entities|
  {
    var target := TargetOf(b, m);
    var moves := if m.targetBeyondStep then InSquare(m.step, ArenaBound) else InSquare(target, ArenaBound);
    var done := !(m.targetBeyondStep && moves);
    b.(complete := done, moveTarget := if done then None else Some(target),
       position := if !moves then b.position else if m.targetBeyondStep then m.step else target,
       entities := if moves then AfterCollection(b.entities, m.distAfter) else b.entities,
       collected := if moves then b.collected + CollectedCount(b.entities, m.distAfter, |m.distAfter|) else b.collected)
  }

  /** The turning cases: done iff the rotation target is within one step. */
  function TurnSpec(b: Body, m: Motion): Body
  {
    b.(complete := !m.rotationBeyondStep, rotating := m.rotationBeyondStep)
  }

  /** The avoidance cases: a turn is aimed only at the start and only when a
      visible obstacle or wall exists. */
  function AvoidSpec(b: Body, m: Motion): Body
    requires |m.distBefore| == |b.entities|
  {
    var aiming := if b.complete then Nearest(b.entities, m.distBefore, VisibleObstacle).Some? else b.rotating;
    b.(rotating := aiming && m.rotationBeyondStep, complete := !(aiming && m.rotationBeyondStep))
  }

  /** `collisionDetected`: one guarded step back, and the movement is over. */
  function CollisionSpec(b: Body, m: Motion): Body
  {
    b.(position := if InSquare(m.step, ArenaBound) then m.step else b.position, complete := true)
  }

  /** The orb cases: a guarded step toward the nearest visible orb; within
      1.0 of it after the step, it is hidden, counted, and the collection
      finishes. */
  function ApproachSpec(b: Body, m: Motion): Body
    requires |m.distBefore| == |b.entities| && |m.distAfter| == |b.entities|
  {
    var orb := Nearest(b.entities, m.distBefore, VisibleCollectible);
    var moves := orb.Some? && InSquare(m.step, ArenaBound);
    if moves && m.distAfter[orb.value] < CollectionRadius then
      b.(position := m.step, entities := Hidden(b.entities, orb.value), collected := b.collected + 1,
         state := CollectingObjFinished, complete := true)
    else b.(position := if moves then m.step else b.position)
  }

  /** `charging`: `min(100, e + 0.2 speed)` within 2.0 of the first station. */
  function ChargeSpec(b: Body, m: Motion, speed: real): Body
    requires |m.distBefore| == |b.entities|
  {
    var station := FirstMatching(b.entities, AnyChargingStation);
    b.(complete := true,
       energy := if station.Some? && m.distBefore[station.value] < ChargingRadius
                 then (if b.energy + ChargeRate * speed < FullEnergy then b.energy + ChargeRate * speed else FullEnergy)
                 else b.energy)
  }

  /** The case of `moveRobot` for the state, before the drain. */
  function ActSpec(b: Body, m: Motion, speed: real): Body
    requires |m.distBefore| == |b.entities| && |m.distAfter| == |b.entities|
  {
    if IsTranslation(b.state) then TranslateSpec(b, m)
    else if IsRotation(b.state) then TurnSpec(b, m)
    else if b.state == CollisionDetected then CollisionSpec(b, m)
    else if IsAvoidance(b.state) then AvoidSpec(b, m)
    else if IsOrbState(b.state) then ApproachSpec(b, m)
    else if b.state == Charging then ChargeSpec(b, m, speed)
    else b
  }

  /** The drain at the end of `moveRobot`, by the state it was called with. */
  function DrainSpec(b: Body, s: State, speed: real): Body
  {
    if s == Charging then b
    else var drain := DrainPerTick(s) * speed;
      b.(energy := if b.energy - drain > 0.0 then b.energy - drain else 0.0)
  }

  /** The drain changes the energy and nothing else. */
  lemma DrainSpecSetsEnergy(b: Body, s: State, speed: real)
    ensures DrainSpec(b, s, speed) ==
              b.(energy := if s == Charging then b.energy
                           else (if b.energy - DrainPerTick(s) * speed > 0.0 then b.energy - DrainPerTick(s) * speed else 0.0))
  {
  }

  /** One whole `moveRobot(currentState)` call. */
  function MoveSpec(b: Body, m: Motion, speed: real): Body
    requires |m.distBefore| == |b.entities| && |m.distAfter| == |b.entities|
  {
    DrainSpec(ActSpec(b, m, speed), b.state, speed)
  }

  /** Only `charging` changes the energy before the drain. */
  lemma MoveEnergy(b: Body, m: Motion, speed: real)
    requires |m.distBefore| == |b.entities| && |m.distAfter| == |b.entities|
    ensures MoveSpec(b, m, speed).energy ==
              if b.state == Charging then ChargeSpec(b, m, speed).energy
              else (if b.energy - DrainPerTick(b.state) * speed > 0.0 then b.energy - DrainPerTick(b.state) * speed else 0.0)
  {
    var a := ActSpec(b, m, speed);
    DrainSpecSetsEnergy(a, b.state, speed);
    if b.state == Charging {
      assert a == ChargeSpec(b, m, speed);
    } else {
      assert a.energy == b.energy;
    }
  }

  /** Energy stays in [0, 100]: it never decreases in `charging`, and
      outside it, it drops by exactly the table drain, floored at 0. */
  lemma MoveKeepsEnergyInRange(b: Body, m: Motion, speed: real)
    requires |m.distBefore| == |b.entities| && |m.distAfter| == |b.entities|
    requires 0.0 <= b.energy <= FullEnergy && speed > 0.0
    ensures 0.0 <= MoveSpec(b, m, speed).energy <= FullEnergy
    ensures b.state == Charging ==> MoveSpec(b, m, speed).energy >= b.energy
    ensures b.state != Charging ==>
              MoveSpec(b, m, speed).energy ==
                (if b.energy - DrainPerTick(b.state) * speed > 0.0 then b.energy - DrainPerTick(b.state) * speed else 0.0)
    ensures b.state != Charging ==> MoveSpec(b, m, speed).energy < b.energy || MoveSpec(b, m, speed).energy == 0.0
  {
    MoveEnergy(b, m, speed);
    if b.state != Charging {
      PositiveProduct(DrainPerTick(b.state), speed);
      FlooredDrop(b.energy, DrainPerTick(b.state) * speed);
    }
  }

  /** The state changes only on a pickup, which counts exactly one orb. */
  lemma MoveChangesStateOnlyOnPickup(b: Body, m: Motion, speed: real)
    requires |m.distBefore| == |b.entities| && |m.distAfter| == |b.entities|
    ensures var r := MoveSpec(b, m, speed);
      r.state == b.state ||
      (IsOrbState(b.state) && r.state == CollectingObjFinished && r.collected == b.collected + 1 && r.complete)
  {
    var a := ActSpec(b, m, speed);
    DrainSpecSetsEnergy(a, b.state, speed);
    if IsOrbState(b.state) {
      assert a == ApproachSpec(b, m);
    } else {
      assert a.state == b.state;
    }
  }

  /** What each kind of state leaves alone: only translations, the orb
      states and `collisionDetected` move the robot or touch the scene, and
      the waiting and station states change nothing but the energy. */
  lemma MoveFrame(b: Body, m: Motion, speed: real)
    requires |m.distBefore| == |b.entities| && |m.distAfter| == |b.entities|
    ensures var r := MoveSpec(b, m, speed);
      (!IsTranslation(b.state) && !IsOrbState(b.state) && b.state != CollisionDetected ==>
         r.position == b.position && r.entities == b.entities && r.collected == b.collected) &&
      (b.state == CollisionDetected ==>
         r.position == (if InSquare(m.step, ArenaBound) then m.step else b.position) && r.complete) &&
      (b.state == Charging ==> r.complete) &&
      (!IsTranslation(b.state) && !IsRotation(b.state) && !IsAvoidance(b.state) && b.state != CollisionDetected &&
       b.state != Charging && !IsOrbState(b.state) ==>
         r.moveTarget == b.moveTarget && r.rotating == b.rotating && r.complete == b.complete)
  {
  }

  /** Hiding a visible orb removes exactly one visible orb. */
  lemma {:induction false} HiddenVisibleOrbs(es: seq<Entity>, k: nat, n: nat)
    requires k < |es| && n <= |es| && es[k].kind == Collectible && es[k].visible
    ensures VisibleOrbs(Hidden(es, k), n) + (if k < n then 1 else 0) == VisibleOrbs(es, n)
  {
    if n > 0 {
      HiddenVisibleOrbs(es, k, n - 1);
    }
  }

  /** No orb is lost or made up: visible orbs plus collected ones are the
      same before and after a call. */
  lemma MoveConservesOrbs(b: Body, m: Motion, speed: real)
    requires |m.distBefore| == |b.entities| && |m.distAfter| == |b.entities|
    ensures var r := MoveSpec(b, m, speed);
      |r.entities| == |b.entities| &&
      VisibleOrbs(r.entities, |r.entities|) + r.collected == VisibleOrbs(b.entities, |b.entities|) + b.collected
  {
    var a := ActSpec(b, m, speed);
    DrainSpecSetsEnergy(a, b.state, speed);
    if IsTranslation(b.state) {
      assert a == TranslateSpec(b, m);
      CollectionConservesOrbs(b.entities, m.distAfter, |b.entities|);
    } else if IsOrbState(b.state) {
      assert a == ApproachSpec(b, m);
      var orb := Nearest(b.entities, m.distBefore, VisibleCollectible);
      if orb.Some? {
        HiddenVisibleOrbs(b.entities, orb.value, |b.entities|);
      }
    } else {
      assert a.entities == b.entities && a.collected == b.collected;
    }
  }

  class Simulation {
    const sensor: EnvironmentSensor
    const chain: MarkovChain
    const robot: Robot
    const scene: Scene
    var isPaused: bool
    var simulationSpeed: real
    var lastUpdateTime: real
    var currentState: State
    var energy: real
    var isMovementComplete: bool
    var moveTarget: Option<Pos>
    var hasRotationTarget: bool
    var isGameOver: bool

    /** A movement in progress belongs to the current state: a translation
        holds a move target, a turn or an avoidance holds a rotation target,
        and a resting robot holds neither. */
    ghost predicate MovementConsistent()
      reads this
    {
      (isMovementComplete ==> moveTarget.None? && !hasRotationTarget) &&
      (!isMovementComplete ==>
         (IsTranslation(currentState) && moveTarget.Some? && !hasRotationTarget) ||
         ((IsRotation(currentState) || IsAvoidance(currentState)) && hasRotationTarget && moveTarget.None?))
    }

    ghost predicate Valid()
      reads this, chain, robot
    {
      chain.Valid() &&
      simulationSpeed > 0.0 && 0.0 <= energy <= FullEnergy &&
      InSquare(robot.position, ArenaBound) &&
      MovementConsistent()
    }

    /** The part of the simulation one `moveRobot` call can change. */
    ghost function Snapshot(): Body
      reads this, robot, scene, sensor
    {
      Body(currentState, isMovementComplete, moveTarget, hasRotationTarget, energy,
           robot.position, scene.entities, sensor.collectedOrbs)
    }

    /** The module-level set-up of robot-test/main.js at clock `now`. */
    constructor (sensor: EnvironmentSensor, chain: MarkovChain, robot: Robot, scene: Scene, now: real)
      requires chain.transitionMatrix == Shipped && chain.Valid()
      requires InSquare(robot.position, ArenaBound)
      ensures Valid()
      ensures this.sensor == sensor && this.chain == chain && this.robot == robot && this.scene == scene
      ensures !isPaused && simulationSpeed == 1.0 && lastUpdateTime == now
      ensures currentState == Awaiting && energy == FullEnergy && !isGameOver
      ensures isMovementComplete && moveTarget.None? && !hasRotationTarget
    {
      this.sensor := sensor;
      this.chain := chain;
      this.robot := robot;
      this.scene := scene;
      isPaused := false;
      simulationSpeed := 1.0;
      lastUpdateTime := now;
      currentState := Awaiting;
      energy := FullEnergy;
      isMovementComplete := true;
      moveTarget := None;
      hasRotationTarget := false;
      isGameOver := false;
    }

    /** The pause callback: resuming restarts the frame clock. */
    method TogglePause(now: real)
      modifies this`isPaused, this`lastUpdateTime
      ensures isPaused == !old(isPaused)
      ensures lastUpdateTime == if isPaused then old(lastUpdateTime) else now
    {
      isPaused := !isPaused;
      if !isPaused {
        lastUpdateTime := now;
      }
    }

    /** The speed callback; the slider offers 0.1 to 3. */
    method SetSpeed(speed: real)
      requires Valid() && speed > 0.0
      modifies this`simulationSpeed
      ensures Valid() && simulationSpeed == speed
    {
      simulationSpeed := speed;
    }

    /** `checkCollectibles`: hide and count every visible orb within 1.0. */
    method CheckCollectibles(dist: seq<real>)
      requires |dist| == |scene.entities|
      modifies scene`entities, sensor`collectedOrbs
      ensures scene.entities == AfterCollection(old(scene.entities), dist)
      ensures sensor.collectedOrbs == old(sensor.collectedOrbs) + CollectedCount(old(scene.entities), dist, |dist|)
    {
      ghost var es := scene.entities;
      var i := 0;
      while i < |dist|
        invariant 0 <= i <= |dist| == |es| == |scene.entities|
        invariant forall j :: 0 <= j < i ==> scene.entities[j] == AfterCollection(es, dist)[j]
        invariant forall j :: i <= j < |es| ==> scene.entities[j] == es[j]
        invariant sensor.collectedOrbs == old(sensor.collectedOrbs) + CollectedCount(es, dist, i)
      {
        var obj := scene.entities[i];
        if obj.kind == Collectible && obj.visible {
          if dist[i] < CollectionRadius {
            scene.entities := scene.entities[i := obj.(visible := false)];
            sensor.collectedOrbs := sensor.collectedOrbs + 1;
          }
        }
        i := i + 1;
      }
      assert scene.entities == AfterCollection(es, dist);
    }

    /** The translation cases of `moveRobot`: set the move target when
        starting, then step toward it, or snap onto it when it is within one
        step; collect orbs after every position change. */
    method Translate(m: Motion)
      requires Valid() && IsTranslation(currentState)
      requires |m.distAfter| == |scene.entities|
      modifies this`isMovementComplete, this`moveTarget, robot`position, scene`entities, sensor`collectedOrbs
      ensures Valid()
      ensures var target := if old(isMovementComplete) then m.target else old(moveTarget).value;
        var moves := if m.targetBeyondStep then InSquare(m.step, ArenaBound) else InSquare(target, ArenaBound);
        robot.position == (if !moves then old(robot.position) else if m.targetBeyondStep then m.step else target) &&
        (moves ==> scene.entities == AfterCollection(old(scene.entities), m.distAfter) &&
                   sensor.collectedOrbs == old(sensor.collectedOrbs) + CollectedCount(old(scene.entities), m.distAfter, |m.distAfter|)) &&
        (!moves ==> scene.entities == old(scene.entities) && sensor.collectedOrbs == old(sensor.collectedOrbs)) &&
        isMovementComplete == !(m.targetBeyondStep && moves) &&
        moveTarget == (if isMovementComplete then None else Some(target))
      ensures Snapshot() == TranslateSpec(old(Snapshot()), m)
    {
      if isMovementComplete {
        isMovementComplete := false;
        moveTarget := Some(m.target);
      }
      var target := moveTarget.value;
      if m.targetBeyondStep {
        if !CheckBoundaryCollision(m.step) {
          robot.position := m.step;
          CheckCollectibles(m.distAfter);
        } else {
          isMovementComplete := true;
          moveTarget := None;
        }
      } else {
        if !CheckBoundaryCollision(target) {
          robot.position := target;
          CheckCollectibles(m.distAfter);
        }
        isMovementComplete := true;
        moveTarget := None;
      }
    }

    /** The turning cases of `moveRobot`: set a quarter-turn target when
        starting, then turn toward it until it is within one angular step. */
    method Turn(m: Motion)
      requires Valid() && IsRotation(currentState)
      modifies this`isMovementComplete, this`hasRotationTarget
      ensures Valid()
      ensures isMovementComplete == !m.rotationBeyondStep && hasRotationTarget == m.rotationBeyondStep
      ensures Snapshot() == TurnSpec(old(Snapshot()), m)
    {
      if isMovementComplete {
        isMovementComplete := false;
        hasRotationTarget := true;
      }
      if hasRotationTarget {
        if !m.rotationBeyondStep {
          isMovementComplete := true;
          hasRotationTarget := false;
        }
      }
    }

    /** `seeingObstacleAhead` / `seeingObstacleProximal`: when starting, aim a
        quarter turn only if there is a visible obstacle or wall at all. */
    method Avoid(m: Motion)
      requires Valid() && IsAvoidance(currentState)
      requires |m.distBefore| == |scene.entities|
      modifies this`isMovementComplete, this`hasRotationTarget
      ensures Valid()
      ensures var aiming := if old(isMovementComplete)
                            then Nearest(scene.entities, m.distBefore, VisibleObstacle).Some?
                            else old(hasRotationTarget);
        hasRotationTarget == (aiming && m.rotationBeyondStep) && isMovementComplete == !hasRotationTarget
      ensures Snapshot() == AvoidSpec(old(Snapshot()), m)
    {
      if isMovementComplete {
        isMovementComplete := false;
        var nearestObstacle := FindNearest(scene.entities, m.distBefore, VisibleObstacle);
        if nearestObstacle.Some? {
          hasRotationTarget := true;
        }
      }
      if hasRotationTarget {
        if !m.rotationBeyondStep {
          isMovementComplete := true;
          hasRotationTarget := false;
        }
      } else {
        isMovementComplete := true;
      }
    }

    /** Reaching orb `i`: hide it, count it, and finish the collection. */
    method PickUp(i: nat)
      requires Valid() && IsOrbState(currentState) && i < |scene.entities|
      modifies this`currentState, this`isMovementComplete, scene`entities, sensor`collectedOrbs
      ensures Valid()
      ensures scene.entities == Hidden(old(scene.entities), i)
      ensures sensor.collectedOrbs == old(sensor.collectedOrbs) + 1
      ensures currentState == CollectingObjFinished && isMovementComplete
    {
      scene.entities := Hidden(scene.entities, i);
      sensor.collectedOrbs := sensor.collectedOrbs + 1;
      currentState := CollectingObjFinished;
      isMovementComplete := true;
    }

    /** The orb cases: step toward the nearest visible orb; reaching it hides
        it, counts it, and finishes the collection. */
    method ApproachOrb(m: Motion)
      requires Valid() && IsOrbState(currentState)
      requires |m.distBefore| == |scene.entities| && |m.distAfter| == |scene.entities|
      modifies this`currentState, this`isMovementComplete, robot`position, scene`entities, sensor`collectedOrbs
      ensures Valid()
      ensures var orb := Nearest(old(scene.entities), m.distBefore, VisibleCollectible);
        var moves := orb.Some? && InSquare(m.step, ArenaBound);
        var picked := moves && m.distAfter[orb.value] < CollectionRadius;
        robot.position == (if moves then m.step else old(robot.position)) &&
        (picked ==> scene.entities == Hidden(old(scene.entities), orb.value) &&
                    sensor.collectedOrbs == old(sensor.collectedOrbs) + 1 &&
                    currentState == CollectingObjFinished && isMovementComplete) &&
        (!picked ==> scene.entities == old(scene.entities) && sensor.collectedOrbs == old(sensor.collectedOrbs) &&
                     currentState == old(currentState) && isMovementComplete == old(isMovementComplete))
      ensures Snapshot() == ApproachSpec(old(Snapshot()), m)
    {
      ghost var b := Snapshot();
      var nearestOrb := FindNearest(scene.entities, m.distBefore, VisibleCollectible);
      if nearestOrb.Some? {
        if !CheckBoundaryCollision(m.step) {
          robot.position := m.step;
          if m.distAfter[nearestOrb.value] < CollectionRadius {
            PickUp(nearestOrb.value);
          }
          assert Snapshot() == ApproachSpec(b, m);
        }
      }
    }

    /** `charging`: gain 0.2 per tick at speed 1, capped at 100, within 2.0
        of the first charging station of the scene. */
    method Charge(m: Motion)
      requires Valid() && currentState == Charging
      requires |m.distBefore| == |scene.entities|
      modifies this`energy, this`isMovementComplete
      ensures Valid() && isMovementComplete
      ensures var station := FirstMatching(scene.entities, AnyChargingStation);
        energy == if station.Some? && m.distBefore[station.value] < ChargingRadius
                  then (if old(energy) + ChargeRate * simulationSpeed < FullEnergy
                        then old(energy) + ChargeRate * simulationSpeed else FullEnergy)
                  else old(energy)
      ensures energy >= old(energy)
      ensures Snapshot() == ChargeSpec(old(Snapshot()), m, simulationSpeed)
    {
      var chargingStation := FirstMatching(scene.entities, AnyChargingStation);
      if chargingStation.Some? && m.distBefore[chargingStation.value] < ChargingRadius {
        energy := if energy + ChargeRate * simulationSpeed < FullEnergy
                  then energy + ChargeRate * simulationSpeed else FullEnergy;
      }
      isMovementComplete := true;
    }

    /** The drain at the end of `moveRobot`, by the state it was called with. */
    method Drain(state: State)
      requires Valid()
      modifies this`energy
      ensures Valid()
      ensures energy == if state == Charging then old(energy)
                        else (if old(energy) - DrainPerTick(state) * simulationSpeed > 0.0
                              then old(energy) - DrainPerTick(state) * simulationSpeed else 0.0)
      ensures state != Charging ==> energy < old(energy) || energy == 0.0
      ensures Snapshot() == DrainSpec(old(Snapshot()), state, simulationSpeed)
    {
      ghost var b := Snapshot();
      if state != Charging {
        var drain := DrainPerTick(state) * simulationSpeed;
        PositiveProduct(DrainPerTick(state), simulationSpeed);
        energy := if energy - drain > 0.0 then energy - drain else 0.0;
      }
      assert Snapshot() == b.(energy := energy);
      DrainSpecSetsEnergy(b, state, simulationSpeed);
    }

    /** The state-specific part of `moveRobot`, before the drain. */
    method Act(state: State, m: Motion)
      requires Valid() && state == currentState
      requires |m.distBefore| == |scene.entities| && |m.distAfter| == |scene.entities|
      modifies this`currentState, this`isMovementComplete, this`moveTarget, this`hasRotationTarget, this`energy,
               robot`position, scene`entities, sensor`collectedOrbs
      ensures Valid()
      ensures Snapshot() == ActSpec(old(Snapshot()), m, simulationSpeed)
    {
      ghost var b := Snapshot();
      if IsTranslation(state) {
        Translate(m);
      } else if IsRotation(state) {
        Turn(m);
      } else if state == CollisionDetected {
        if !CheckBoundaryCollision(m.step) {
          robot.position := m.step;
        }
        isMovementComplete := true;
        assert Snapshot() == CollisionSpec(b, m);
      } else if IsAvoidance(state) {
        Avoid(m);
      } else if IsOrbState(state) {
        ApproachOrb(m);
      } else if state == Charging {
        Charge(m);
      }
    }

    /** `moveRobot(state, deltaTime)`, called with the current state;
        returns `isMovementComplete`. */
    method MoveRobot(state: State, m: Motion) returns (complete: bool)
      requires Valid() && state == currentState
      requires |m.distBefore| == |scene.entities| && |m.distAfter| == |scene.entities|
      modifies this`currentState, this`isMovementComplete, this`moveTarget, this`hasRotationTarget, this`energy,
               robot`position, scene`entities, sensor`collectedOrbs
      ensures Valid() && complete == isMovementComplete
      ensures Snapshot() == MoveSpec(old(Snapshot()), m, simulationSpeed)
      ensures currentState == old(currentState) || (IsOrbState(state) && currentState == CollectingObjFinished)
      ensures state == Charging ==> energy >= old(energy)
      ensures state != Charging ==> energy <= old(energy)
      ensures VisibleOrbs(scene.entities, |scene.entities|) + sensor.collectedOrbs ==
              VisibleOrbs(old(scene.entities), |old(scene.entities)|) + old(sensor.collectedOrbs)
    {
      ghost var before := Snapshot();
      Act(state, m);
      Drain(state);
      complete := isMovementComplete;
      MoveKeepsEnergyInRange(before, m, simulationSpeed);
      MoveChangesStateOnlyOnPickup(before, m, simulationSpeed);
      MoveConservesOrbs(before, m, simulationSpeed);
    }

    /** The state choice of `animate` once the previous movement is over:
        the detected situation wins, otherwise the chain takes a step. */
    method ChooseState(now: real, rays: seq<Ray>, r: real)
      requires Valid() && isMovementComplete
      modifies this`currentState, chain`lastStateChangeTime
      ensures Valid()
      ensures currentState == match SolveCurStateConflict(Detection(rays))
                              case Some(s) => s
                              case None => ChainStep(chain.transitionMatrix, old(currentState), old(chain.lastStateChangeTime), now, r).0
      ensures chain.lastStateChangeTime == match SolveCurStateConflict(Detection(rays))
                                           case Some(_) => old(chain.lastStateChangeTime)
                                           case None => ChainStep(chain.transitionMatrix, old(currentState), old(chain.lastStateChangeTime), now, r).1
    {
      var detectedStates := sensor.DetectStates(rays);
      var environmentState := SolveCurStateConflict(detectedStates);
      if environmentState.Some? {
        currentState := environmentState.value;
      } else {
        var nextStateData := chain.NewState(Index(currentState), now, r);
        ghost var expected := ChainStep(chain.transitionMatrix, old(currentState), old(chain.lastStateChangeTime), now, r);
        IndexOfAll(nextStateData.value.state);
        currentState := All[nextStateData.value.state];
        assert Index(currentState) == Index(expected.0);
      }
    }

    /** The state for this update: re-chosen once the previous movement is
        over, kept while it is in progress (the source's branch for an
        unfinished `collectingObj` cannot be taken, by the invariant). */
    method Rechoose(now: real, rays: seq<Ray>, r: real)
      requires Valid()
      modifies this`currentState, chain`lastStateChangeTime
      ensures Valid()
      ensures currentState == (if !old(isMovementComplete) then old(currentState)
                               else match SolveCurStateConflict(Detection(rays))
                                    case Some(s) => s
                                    case None => ChainStep(chain.transitionMatrix, old(currentState), old(chain.lastStateChangeTime), now, r).0)
      ensures chain.lastStateChangeTime == (if !old(isMovementComplete) then old(chain.lastStateChangeTime)
                                            else match SolveCurStateConflict(Detection(rays))
                                                 case Some(_) => old(chain.lastStateChangeTime)
                                                 case None => ChainStep(chain.transitionMatrix, old(currentState), old(chain.lastStateChangeTime), now, r).1)
      ensures Snapshot() == old(Snapshot()).(state := currentState)
    {
      if currentState == CollectingObj && !isMovementComplete {
        assert false;
      } else if isMovementComplete {
        ChooseState(now, rays, r);
      }
    }

    /** One update of `animate` on a running game with energy left: the
        state is re-chosen once the previous movement is over, then
        `moveRobot` runs on it and the update time is recorded. The ghost
        output is the state handed to `moveRobot`. */
    method Update(now: real, rays: seq<Ray>, m: Motion, r: real) returns (ghost decided: State)
      requires Valid() && !isGameOver && energy > 0.0
      requires |m.distBefore| == |scene.entities| && |m.distAfter| == |scene.entities|
      modifies this`currentState, this`isMovementComplete, this`moveTarget, this`hasRotationTarget, this`energy,
               this`lastUpdateTime, chain`lastStateChangeTime, robot`position, scene`entities, sensor`collectedOrbs
      ensures Valid() && lastUpdateTime == now
      ensures decided == (if !old(isMovementComplete) then old(currentState)
                          else match SolveCurStateConflict(Detection(rays))
                               case Some(s) => s
                               case None => ChainStep(chain.transitionMatrix, old(currentState), old(chain.lastStateChangeTime), now, r).0)
      ensures chain.lastStateChangeTime == (if !old(isMovementComplete) then old(chain.lastStateChangeTime)
                                            else match SolveCurStateConflict(Detection(rays))
                                                 case Some(_) => old(chain.lastStateChangeTime)
                                                 case None => ChainStep(chain.transitionMatrix, old(currentState), old(chain.lastStateChangeTime), now, r).1)
      ensures currentState == decided || (IsOrbState(decided) && currentState == CollectingObjFinished)
      ensures Snapshot() == MoveSpec(old(Snapshot()).(state := decided), m, simulationSpeed)
    {
      Rechoose(now, rays, r);
      decided := currentState;
      if !isGameOver {
        var _ := MoveRobot(currentState, m);
      }
      ghost var after := Snapshot();
      lastUpdateTime := now;
      assert Snapshot() == after;
    }

    /** `animate(currentTime)` with clock `now`, the rays of this tick, its
        geometry and the draw for `newState`. The ghost output is the state
        handed to `moveRobot`. */
    method Animate(now: real, rays: seq<Ray>, m: Motion, r: real) returns (ghost decided: State)
      requires Valid()
      requires |m.distBefore| == |scene.entities| && |m.distAfter| == |scene.entities|
      modifies this, chain`lastStateChangeTime, robot`position, scene`entities, sensor`collectedOrbs
      ensures Valid()
      ensures old(isPaused) || old(isGameOver) || now - old(lastUpdateTime) < BaseUpdateInterval / old(simulationSpeed) ==>
                unchanged(this, chain, robot, scene, sensor)
      ensures !old(isPaused) && !old(isGameOver) && now - old(lastUpdateTime) >= BaseUpdateInterval / old(simulationSpeed) ==>
        (old(energy) <= 0.0 ==>
           isGameOver && currentState == old(currentState) && energy == old(energy) &&
           lastUpdateTime == old(lastUpdateTime) && unchanged(chain, robot, scene, sensor) &&
           Snapshot() == old(Snapshot()) && isPaused == old(isPaused) && simulationSpeed == old(simulationSpeed)) &&
        (old(energy) > 0.0 ==>
           !isGameOver && lastUpdateTime == now &&
           decided == (if !old(isMovementComplete) then old(currentState)
                       else match SolveCurStateConflict(Detection(rays))
                            case Some(s) => s
                            case None => ChainStep(chain.transitionMatrix, old(currentState), old(chain.lastStateChangeTime), now, r).0) &&
           chain.lastStateChangeTime == (if !old(isMovementComplete) then old(chain.lastStateChangeTime)
                                         else match SolveCurStateConflict(Detection(rays))
                                              case Some(_) => old(chain.lastStateChangeTime)
                                              case None => ChainStep(chain.transitionMatrix, old(currentState), old(chain.lastStateChangeTime), now, r).1) &&
           (currentState == decided || (IsOrbState(decided) && currentState == CollectingObjFinished)) &&
           isPaused == old(isPaused) && simulationSpeed == old(simulationSpeed) &&
           Snapshot() == MoveSpec(old(Snapshot()).(state := decided), m, old(simulationSpeed)))
      ensures old(isGameOver) ==> isGameOver
    {
      decided := currentState;
      if isPaused || isGameOver {
        return;
      }
      var updateInterval := BaseUpdateInterval / simulationSpeed;
      if now - lastUpdateTime >= updateInterval {
        if energy <= 0.0 && !isGameOver {
          isGameOver := true;
          return;
        }
        decided := Update(now, rays, m, r);
      }
    }
  }
}
