/** utils.js: the controller of the main robot. It classifies five forward
    rays into a set of sensed states at most every 100 ms, and moves the robot
    one step according to the current state, falling back to `awaiting` when
    the state has not been refreshed for 2 s. */
module Controller {
  import opened Wrappers
  import opened StateSpace
  import opened World

  const ProximityThreshold: real := 1.5
  const DetectionRange: real := 4.0
  const StateCheckInterval: real := 100.0
  const StateTimeoutDuration: real := 2000.0
  const ForwardCollisionDistance: real := 1.0
  const PickupDistance: real := 0.5
  const FinishedGrace: real := 200.0
  const ArenaBound: real := 14.0

  // ---------------------------------------------------------------------------
  // Ray classification (detectStates)

  predicate Proximal(hit: Option<real>)
  {
    hit.Some? && hit.value < ProximityThreshold
  }

  predicate Ahead(hit: Option<real>)
  {
    hit.Some? && ProximityThreshold <= hit.value <= DetectionRange
  }

  predicate NoDuplicates(s: seq<State>)
  {
    forall i, j :: 0 <= i < j < |s| ==> s[i] != s[j]
  }

  /** Some ray sees a collectible (resp. an obstacle) in the proximal band. */
  predicate AnyProximal(rays: seq<Ray>, collectible: bool)
  {
    exists i :: 0 <= i < |rays| && Proximal(if collectible then rays[i].collectible else rays[i].obstacle)
  }

  /** Some ray sees it in the ahead band before any ray has seen it proximal. */
  predicate AheadBeforeProximal(rays: seq<Ray>, collectible: bool)
  {
    exists i :: 0 <= i < |rays| && Ahead(if collectible then rays[i].collectible else rays[i].obstacle) &&
                !AnyProximal(rays[..i], collectible)
  }

  /** What the set built by `detectStates` holds: no state twice, only the
      four sight states, "proximal" iff some ray is that close, "ahead" iff
      some ray saw it ahead before the proximal flag was raised. */
  predicate IsClassification(rays: seq<Ray>, states: seq<State>)
  {
    NoDuplicates(states) &&
    (forall s :: s in states ==> s in {SeeingObjProximal, SeeingObjAhead, SeeingObstacleProximal, SeeingObstacleAhead}) &&
    (SeeingObjProximal in states <==> AnyProximal(rays, true)) &&
    (SeeingObjAhead in states <==> AheadBeforeProximal(rays, true)) &&
    (SeeingObstacleProximal in states <==> AnyProximal(rays, false)) &&
    (SeeingObstacleAhead in states <==> AheadBeforeProximal(rays, false))
  }

  /** `Set.add` on a set kept in insertion order. */
  function Add(s: seq<State>, x: State): (r: seq<State>)
    ensures forall y :: y in r <==> y in s || y == x
    ensures NoDuplicates(s) ==> NoDuplicates(r)
  {
    if x in s then s else s + [x]
  }

  lemma ProximalStep(rays: seq<Ray>, i: nat, collectible: bool)
    requires i < |rays|
    ensures AnyProximal(rays[..i + 1], collectible) <==>
            AnyProximal(rays[..i], collectible) ||
            Proximal(if collectible then rays[i].collectible else rays[i].obstacle)
  {
    assert forall j :: 0 <= j < i ==> rays[..i + 1][j] == rays[..i][j];
    assert rays[..i + 1][i] == rays[i];
  }

  lemma AheadStep(rays: seq<Ray>, i: nat, collectible: bool)
    requires i < |rays|
    ensures AheadBeforeProximal(rays[..i + 1], collectible) <==>
            AheadBeforeProximal(rays[..i], collectible) ||
            (Ahead(if collectible then rays[i].collectible else rays[i].obstacle) &&
             !AnyProximal(rays[..i], collectible))
  {
    var p, q := rays[..i], rays[..i + 1];
    assert forall j :: 0 <= j <= i ==> q[..j] == p[..j] || j == i;
    assert q[..i] == p;
    if AheadBeforeProximal(p, collectible) {
      var j :| 0 <= j < |p| && Ahead(if collectible then p[j].collectible else p[j].obstacle) && !AnyProximal(p[..j], collectible);
      assert q[j] == p[j] && q[..j] == p[..j];
    }
  }

  /** One ray's hit for one kind of entity: a hit in the proximal band adds
      the proximal state, one in the ahead band adds the ahead state unless
      the proximal state is already there. */
  method Note(states: seq<State>, hit: Option<real>, proximal: State, ahead: State) returns (r: seq<State>)
    requires proximal != ahead
    ensures forall y :: y != proximal && y != ahead ==> (y in r <==> y in states)
    ensures proximal in r <==> proximal in states || Proximal(hit)
    ensures ahead in r <==> ahead in states || (Ahead(hit) && proximal !in states)
    ensures NoDuplicates(states) ==> NoDuplicates(r)
  {
    if Proximal(hit) {
      r := Add(states, proximal);
    } else if Ahead(hit) && proximal !in states {
      r := Add(states, ahead);
    } else {
      r := states;
    }
  }

  /** The per-ray loop of `detectStates`, returning `Array.from(detectedStates)`. */
  method ClassifyRays(rays: seq<Ray>) returns (states: seq<State>)
    ensures IsClassification(rays, states)
  {
    states := [];
    var i := 0;
    while i < |rays|
      invariant 0 <= i <= |rays|
      invariant IsClassification(rays[..i], states)
    {
      ProximalStep(rays, i, true);
      ProximalStep(rays, i, false);
      AheadStep(rays, i, true);
      AheadStep(rays, i, false);
      states := Note(states, rays[i].collectible, SeeingObjProximal, SeeingObjAhead);
      states := Note(states, rays[i].obstacle, SeeingObstacleProximal, SeeingObstacleAhead);
      i := i + 1;
    }
    assert rays[..i] == rays;
  }

  // ---------------------------------------------------------------------------
  // One movement step (moveRobot)

  /** What the step's geometry looks like, computed by ray casts and vector
      arithmetic that are not modelled:
      - `forwardHit`: distance of the first obstacle or wall on the forward ray;
      - `step`: the position the current state's single translation would reach;
      - `distBefore`, `distAfter`: robot-to-entity distances before and after it;
      - `left`, `right`: the side clearances at ±45° (`None` is `Infinity`). */
  datatype Sight = Sight(forwardHit: Option<real>, step: Pos,
                         distBefore: seq<real>, distAfter: seq<real>,
                         left: Option<real>, right: Option<real>)

  /** The robot's heading change this step, by sign; the angle is not modelled. */
  datatype Turn = NoTurn | TurnLeft | TurnRight

  /** `checkForwardCollision`: an obstacle or wall less than 1.0 ahead.
      This is a definition; its ensures only spells it out for callers. */
  function CheckForwardCollision(forwardHit: Option<real>): (blocked: bool)
    ensures blocked <==> exists d :: forwardHit == Some(d) && d < ForwardCollisionDistance
  {
    forwardHit.Some? && forwardHit.value < ForwardCollisionDistance
  }

  /** `checkBoundaryCollision` of the main robot: the position leaves the
      ±14 square (the robot-test sensor uses ±15). */
  function CheckBoundaryCollision(p: Pos): (out: bool)
    ensures !out <==> InSquare(p, ArenaBound)
  {
    p.x < -ArenaBound || p.x > ArenaBound || p.z < -ArenaBound || p.z > ArenaBound
  }

  /** `leftDistance > rightDistance` with `None` as `Infinity`. */
  predicate LeftIsClearer(left: Option<real>, right: Option<real>)
  {
    match (left, right)
    case (Some(l), Some(r)) => l > r
    case (None, Some(_)) => true
    case (_, None) => false
  }

  /** Whether the state's case translates the robot this step (before the
      boundary guard): the forward cases only when the way is clear, the orb
      and station cases only when there is a target. */
  predicate Translates(state: State, sight: Sight, es: seq<Entity>)
    requires |sight.distBefore| == |es|
  {
    match state
    case MovingFwd | MovingFwdDecelerate | SeeingObjAhead
       | SeeingChgStationAhead | SeeingChgStationProximal => !CheckForwardCollision(sight.forwardHit)
    case MovingBack | CollisionDetected | SeeingObstacleAhead | SeeingObstacleProximal => true
    case SeeingObjProximal | CollectingObj => Nearest(es, sight.distBefore, VisibleCollectible).Some?
    case ChargingNeeded => Nearest(es, sight.distBefore, AnyChargingStation).Some?
    case _ => false
  }

  /** The turn the state's case makes. */
  function TurnOf(state: State, sight: Sight): Turn
  {
    match state
    case RotatingLeft => TurnLeft
    case RotatingRight => TurnRight
    case SeeingObstacleProximal => if LeftIsClearer(sight.left, sight.right) then TurnLeft else TurnRight
    case _ => NoTurn
  }

  /** The states whose case can return another state. */
  predicate MayLeave(state: State)
  {
    state == MovingFwd || state == CollectingObj || state == CollectingObjFinished ||
    state == CollisionDetected || state == ChargingFinished
  }

  /** The state `moveRobot(state)` returns at clock `now`, with the timestamp
      `last` it started with: `awaiting` after the 2 s timeout, otherwise the
      five cases that leave their state. */
  predicate NextStateRule(state: State, now: real, last: real, sight: Sight, es: seq<Entity>, next: State)
    requires |sight.distBefore| == |es| && |sight.distAfter| == |es|
  {
    if now - last > StateTimeoutDuration then next == Awaiting
    else
      var orb := Nearest(es, sight.distBefore, VisibleCollectible);
      (state == MovingFwd ==>
         next == if CheckForwardCollision(sight.forwardHit) then CollisionDetected else MovingFwd) &&
      (state == CollectingObj ==>
         next == if orb.None? then Awaiting
                 else if InSquare(sight.step, ArenaBound) && sight.distAfter[orb.value] < PickupDistance
                 then CollectingObjFinished else CollectingObj) &&
      (state == CollectingObjFinished ==>
         next == if now - last > FinishedGrace then Awaiting else CollectingObjFinished) &&
      (state == CollisionDetected ==> next == MovingBack) &&
      (state == ChargingFinished ==> next == Awaiting) &&
      (!MayLeave(state) ==> next == state)
  }

  /** What one `moveRobot(state)` call does to the scene, the count and the
      robot's position, from the scene `es`, the count `count` and the
      position `pos` before it to `es'`, `count'` and `pos'`: a pickup hides
      exactly the nearest orb and counts it once, and the only position write
      is the state's guarded step. */
  predicate EffectRule(state: State, now: real, last: real, sight: Sight,
                       es: seq<Entity>, count: int, pos: Pos, next: State,
                       es': seq<Entity>, count': int, pos': Pos)
    requires |sight.distBefore| == |es|
  {
    var live := now - last <= StateTimeoutDuration;
    var orb := Nearest(es, sight.distBefore, VisibleCollectible);
    var picked := live && state == CollectingObj && next == CollectingObjFinished;
    (picked ==> orb.Some? && es' == Hidden(es, orb.value) && count' == count + 1) &&
    (!picked ==> es' == es && count' == count) &&
    pos' == (if live && Translates(state, sight, es) && InSquare(sight.step, ArenaBound) then sight.step else pos)
  }

  /** `checkForwardCollision` is what stops the forward cases: with an
      obstacle less than 1.0 ahead, `movingFwd` turns into `collisionDetected`
      and no forward state moves the robot; with the way clear, `movingFwd`
      keeps going and steps unless the step leaves the arena. */
  lemma ForwardBlockStopsTheRobot(state: State, now: real, last: real, sight: Sight,
                                  es: seq<Entity>, count: int, pos: Pos, next: State,
                                  es': seq<Entity>, count': int, pos': Pos)
    requires |sight.distBefore| == |es| && |sight.distAfter| == |es|
    requires state in {MovingFwd, MovingFwdDecelerate, SeeingObjAhead, SeeingChgStationAhead, SeeingChgStationProximal}
    requires now - last <= StateTimeoutDuration
    requires NextStateRule(state, now, last, sight, es, next)
    requires EffectRule(state, now, last, sight, es, count, pos, next, es', count', pos')
    ensures CheckForwardCollision(sight.forwardHit) ==> pos' == pos
    ensures state == MovingFwd ==> (next == CollisionDetected <==> CheckForwardCollision(sight.forwardHit))
    ensures state == MovingFwd && !CheckForwardCollision(sight.forwardHit) && InSquare(sight.step, ArenaBound) ==>
              pos' == sight.step
  {
  }

  class RobotController {
    const scene: Scene
    const robot: Robot
    var collectedOrbs: int
    var lastStateCheck: real
    var lastStateChangeTime: real

    constructor (scene: Scene, robot: Robot, now: real)
      ensures this.scene == scene && this.robot == robot
      ensures collectedOrbs == 0 && lastStateCheck == 0.0 && lastStateChangeTime == now
    {
      this.scene := scene;
      this.robot := robot;
      collectedOrbs := 0;
      lastStateCheck := 0.0;
      lastStateChangeTime := now;
    }

    /** `detectStates(currentTime)`: `null` within 100 ms of the last check,
        otherwise the classification of this tick's rays. */
    method DetectStates(now: real, rays: seq<Ray>) returns (detected: Option<seq<State>>)
      modifies this`lastStateCheck
      ensures now - old(lastStateCheck) < StateCheckInterval ==>
                detected.None? && lastStateCheck == old(lastStateCheck)
      ensures now - old(lastStateCheck) >= StateCheckInterval ==>
                detected.Some? && IsClassification(rays, detected.value) && lastStateCheck == now
    {
      if now - lastStateCheck < StateCheckInterval {
        return None;
      }
      lastStateCheck := now;
      var states := ClassifyRays(rays);
      detected := Some(states);
    }

    /** `moveInDirection` and the orb/station approaches: the position is
        written only when the next position stays inside the ±14 square. */
    method MoveTo(next: Pos)
      modifies robot`position
      ensures robot.position == if CheckBoundaryCollision(next) then old(robot.position) else next
    {
      if !CheckBoundaryCollision(next) {
        robot.position := next;
      }
    }

    /** The `collectingObj` case: step toward the nearest visible orb and
        pick it up once within 0.5; with no orb left, go back to awaiting. */
    method Collect(sight: Sight) returns (next: State)
      requires |sight.distBefore| == |scene.entities| && |sight.distAfter| == |scene.entities|
      modifies this`collectedOrbs, robot`position, scene`entities
      ensures var orb := Nearest(old(scene.entities), sight.distBefore, VisibleCollectible);
        var moves := orb.Some? && InSquare(sight.step, ArenaBound);
        next == (if orb.None? then Awaiting
                 else if moves && sight.distAfter[orb.value] < PickupDistance then CollectingObjFinished
                 else CollectingObj) &&
        robot.position == (if moves then sight.step else old(robot.position)) &&
        (next == CollectingObjFinished ==> scene.entities == Hidden(old(scene.entities), orb.value) &&
                                           collectedOrbs == old(collectedOrbs) + 1) &&
        (next != CollectingObjFinished ==> scene.entities == old(scene.entities) && collectedOrbs == old(collectedOrbs))
    {
      next := CollectingObj;
      var targetOrb := FindNearest(scene.entities, sight.distBefore, VisibleCollectible);
      if targetOrb.Some? {
        if !CheckBoundaryCollision(sight.step) {
          robot.position := sight.step;
          if sight.distAfter[targetOrb.value] < PickupDistance {
            scene.entities := Hidden(scene.entities, targetOrb.value);
            collectedOrbs := collectedOrbs + 1;
            next := CollectingObjFinished;
          }
        }
      } else {
        next := Awaiting;
      }
    }

    /** `moveRobot(state, deltaTime)` at clock `now`. */
    method MoveRobot(state: State, now: real, sight: Sight) returns (next: State, turn: Turn)
      requires |sight.distBefore| == |scene.entities| && |sight.distAfter| == |scene.entities|
      modifies this`lastStateChangeTime, this`collectedOrbs, robot`position, scene`entities
      // the 2 s timeout preempts every case and is the only write of the timestamp
      ensures now - old(lastStateChangeTime) > StateTimeoutDuration ==>
                next == Awaiting && turn == NoTurn && lastStateChangeTime == now &&
                robot.position == old(robot.position) &&
                scene.entities == old(scene.entities) && collectedOrbs == old(collectedOrbs)
      ensures now - old(lastStateChangeTime) <= StateTimeoutDuration ==>
                lastStateChangeTime == old(lastStateChangeTime)
      // the state returned
      ensures now - old(lastStateChangeTime) <= StateTimeoutDuration ==>
        var orb := Nearest(old(scene.entities), sight.distBefore, VisibleCollectible);
        (state == MovingFwd ==>
           next == if CheckForwardCollision(sight.forwardHit) then CollisionDetected else MovingFwd) &&
        (state == CollectingObj ==>
           next == if orb.None? then Awaiting
                   else if InSquare(sight.step, ArenaBound) && sight.distAfter[orb.value] < PickupDistance
                   then CollectingObjFinished else CollectingObj) &&
        (state == CollectingObjFinished ==>
           next == if now - old(lastStateChangeTime) > FinishedGrace then Awaiting else CollectingObjFinished) &&
        (state == CollisionDetected ==> next == MovingBack) &&
        (state == ChargingFinished ==> next == Awaiting) &&
        (!MayLeave(state) ==> next == state)
      // a pickup hides exactly the nearest orb and counts it once; nothing else touches the scene
      ensures var picked := now - old(lastStateChangeTime) <= StateTimeoutDuration &&
                            state == CollectingObj && next == CollectingObjFinished;
        var orb := Nearest(old(scene.entities), sight.distBefore, VisibleCollectible);
        (picked ==> orb.Some? && scene.entities == Hidden(old(scene.entities), orb.value) &&
                    collectedOrbs == old(collectedOrbs) + 1) &&
        (!picked ==> scene.entities == old(scene.entities) && collectedOrbs == old(collectedOrbs))
      // the single position write is the state's step, guarded by the ±14 square
      ensures robot.position ==
                if now - old(lastStateChangeTime) <= StateTimeoutDuration &&
                   Translates(state, sight, old(scene.entities)) && InSquare(sight.step, ArenaBound)
                then sight.step else old(robot.position)
      ensures InSquare(old(robot.position), ArenaBound) ==> InSquare(robot.position, ArenaBound)
      ensures turn == if now - old(lastStateChangeTime) > StateTimeoutDuration then NoTurn else TurnOf(state, sight)
      ensures NextStateRule(state, now, old(lastStateChangeTime), sight, old(scene.entities), next)
      ensures EffectRule(state, now, old(lastStateChangeTime), sight, old(scene.entities), old(collectedOrbs),
                         old(robot.position), next, scene.entities, collectedOrbs, robot.position)
    {
      if now - lastStateChangeTime > StateTimeoutDuration {
        lastStateChangeTime := now;
        return Awaiting, NoTurn;
      }
      next, turn := Act(state, now, sight);
    }

    /** The case of `moveRobot` for `state`, once the timeout has not fired. */
    method Act(state: State, now: real, sight: Sight) returns (next: State, turn: Turn)
      requires |sight.distBefore| == |scene.entities| && |sight.distAfter| == |scene.entities|
      modifies this`collectedOrbs, robot`position, scene`entities
      ensures var orb := Nearest(old(scene.entities), sight.distBefore, VisibleCollectible);
        (state == MovingFwd ==>
           next == if CheckForwardCollision(sight.forwardHit) then CollisionDetected else MovingFwd) &&
        (state == CollectingObj ==>
           next == if orb.None? then Awaiting
                   else if InSquare(sight.step, ArenaBound) && sight.distAfter[orb.value] < PickupDistance
                   then CollectingObjFinished else CollectingObj) &&
        (state == CollectingObjFinished ==>
           next == if now - lastStateChangeTime > FinishedGrace then Awaiting else CollectingObjFinished) &&
        (state == CollisionDetected ==> next == MovingBack) &&
        (state == ChargingFinished ==> next == Awaiting) &&
        (!MayLeave(state) ==> next == state)
      ensures var picked := state == CollectingObj && next == CollectingObjFinished;
        var orb := Nearest(old(scene.entities), sight.distBefore, VisibleCollectible);
        (picked ==> orb.Some? && scene.entities == Hidden(old(scene.entities), orb.value) &&
                    collectedOrbs == old(collectedOrbs) + 1) &&
        (!picked ==> scene.entities == old(scene.entities) && collectedOrbs == old(collectedOrbs))
      ensures robot.position ==
                if Translates(state, sight, old(scene.entities)) && InSquare(sight.step, ArenaBound)
                then sight.step else old(robot.position)
      ensures turn == TurnOf(state, sight)
    {
      next, turn := state, NoTurn;
      match state {
        case MovingFwd =>
          if !CheckForwardCollision(sight.forwardHit) {
            MoveTo(sight.step);
          } else {
            next := CollisionDetected;
          }
        case MovingFwdDecelerate =>
          if !CheckForwardCollision(sight.forwardHit) {
            MoveTo(sight.step);
          }
        case MovingBack =>
          MoveTo(sight.step);
        case RotatingLeft =>
          turn := TurnLeft;
        case RotatingRight =>
          turn := TurnRight;
        case Awaiting =>
        case SeeingObjAhead =>
          if !CheckForwardCollision(sight.forwardHit) {
            MoveTo(sight.step);
          }
        case SeeingObjProximal =>
          var nearestOrb := FindNearest(scene.entities, sight.distBefore, VisibleCollectible);
          if nearestOrb.Some? {
            MoveTo(sight.step);
          }
        case CollectingObj =>
          next := Collect(sight);
        case CollectingObjFinished =>
          if now - lastStateChangeTime > FinishedGrace {
            next := Awaiting;
          }
        case CollisionDetected =>
          MoveTo(sight.step);
          next := MovingBack;
        case SeeingObstacleAhead =>
          MoveTo(sight.step);
        case SeeingObstacleProximal =>
          MoveTo(sight.step);
          if LeftIsClearer(sight.left, sight.right) {
            turn := TurnLeft;
          } else {
            turn := TurnRight;
          }
        case ChargingNeeded =>
          var station := FindNearest(scene.entities, sight.distBefore, AnyChargingStation);
          if station.Some? {
            MoveTo(sight.step);
          }
        case Charging =>
        case ChargingFinished =>
          next := Awaiting;
        case SeeingChgStationAhead =>
          if !CheckForwardCollision(sight.forwardHit) {
            MoveTo(sight.step);
          }
        case SeeingChgStationProximal =>
          if !CheckForwardCollision(sight.forwardHit) {
            MoveTo(sight.step);
          }
      }
    }
  }

  /** The classification is determined by the rays: two runs over the same
      rays agree on which states they hold. */
  lemma ClassificationIsDetermined(rays: seq<Ray>, a: seq<State>, b: seq<State>)
    requires IsClassification(rays, a) && IsClassification(rays, b)
    ensures forall s :: s in a <==> s in b
  {
  }

  /** A collectible in the proximal band on the ray list always raises the
      proximal flag, whatever the other rays see. */
  lemma ProximalOrbIsReported(rays: seq<Ray>, states: seq<State>, i: nat)
    requires IsClassification(rays, states)
    requires i < |rays| && Proximal(rays[i].collectible)
    ensures SeeingObjProximal in states
  {
  }
}
