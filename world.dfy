/** The collaborators the behaviour logic reads and writes: the scene's
    typed entities (walls, pillars, orbs, the charging station), the robot's
    position, and the abstract sensor readings that stand for ray casts. */
module World {
  import opened Wrappers

  datatype Kind = Collectible | Obstacle | Wall | ChargingStation | Scenery

  /** A scene child as the behaviour logic sees it: `userData.type` and `visible`. */
  datatype Entity = Entity(kind: Kind, visible: bool)

  /** A position on the floor plane (`x`, `z`). */
  datatype Pos = Pos(x: real, z: real)

  /** One sensing ray: the distance of its first hit among the collectibles
      it is cast against, and among the obstacles and walls (`None`: no hit). */
  datatype Ray = Ray(collectible: Option<real>, obstacle: Option<real>)

  /** `scene.children`, reduced to what the behaviour logic reads and writes. */
  class Scene {
    var entities: seq<Entity>

    constructor (es: seq<Entity>)
      ensures entities == es
    {
      entities := es;
    }
  }

  /** The robot mesh; only its position is modelled. */
  class Robot {
    var position: Pos

    constructor (p: Pos)
      ensures position == p
    {
      position := p;
    }
  }

  /** The closed square [-half, half] x [-half, half]. */
  predicate InSquare(p: Pos, half: real)
  {
    -half <= p.x <= half && -half <= p.z <= half
  }

  /** The scene with entity `k` made invisible (`obj.visible = false`). */
  function Hidden(es: seq<Entity>, k: nat): (r: seq<Entity>)
    requires k < |es|
    ensures |r| == |es| && !r[k].visible && r[k].kind == es[k].kind
    ensures forall i :: 0 <= i < |es| && i != k ==> r[i] == es[i]
  {
    es[k := es[k].(visible := false)]
  }

  /** Which entities a nearest-entity search considers. */
  datatype Target =
    | VisibleCollectible   // findNearestCollectible, and the orb search of robot-test/main.js
    | AnyChargingStation   // findNearestChargingStation
    | VisibleObstacle      // the obstacle search of robot-test/main.js

  predicate Matches(t: Target, e: Entity)
  {
    match t
    case VisibleCollectible => e.kind == Collectible && e.visible
    case AnyChargingStation => e.kind == ChargingStation
    case VisibleObstacle => (e.kind == Obstacle || e.kind == Wall) && e.visible
  }

  /** `k` is a candidate no farther than any other, and strictly nearer than
      every candidate before it (ties go to the first). */
  predicate IsNearest(es: seq<Entity>, dist: seq<real>, t: Target, k: nat)
    requires |dist| == |es|
  {
    k < |es| && Matches(t, es[k]) &&
    (forall i :: 0 <= i < |es| && Matches(t, es[i]) ==> dist[k] <= dist[i]) &&
    (forall i :: 0 <= i < k && Matches(t, es[i]) ==> dist[k] < dist[i])
  }

  /** The candidate the min-accumulator loop ends with, as a function of the
      scene and the robot-to-entity distances. */
  function Nearest(es: seq<Entity>, dist: seq<real>, t: Target): (k: Option<nat>)
    requires |dist| == |es|
    ensures k.None? <==> forall i :: 0 <= i < |es| ==> !Matches(t, es[i])
    ensures k.Some? ==> IsNearest(es, dist, t, k.value)
  {
    if |es| == 0 then None
    else
      var n := |es| - 1;
      var p := Nearest(es[..n], dist[..n], t);
      assert forall i :: 0 <= i < n ==> es[..n][i] == es[i] && dist[..n][i] == dist[i];
      if Matches(t, es[n]) && (p.None? || dist[n] < dist[p.value]) then Some(n) else p
  }

  /** `findNearestCollectible` / `findNearestChargingStation`: the loop over
      `scene.children` keeping the strictly nearest candidate so far
      (`None` plays `minDistance = Infinity`). */
  method FindNearest(es: seq<Entity>, dist: seq<real>, t: Target) returns (nearest: Option<nat>)
    requires |dist| == |es|
    ensures nearest.None? <==> forall i :: 0 <= i < |es| ==> !Matches(t, es[i])
    ensures nearest.Some? ==> IsNearest(es, dist, t, nearest.value)
    ensures nearest == Nearest(es, dist, t)
  {
    nearest := None;
    var i := 0;
    while i < |es|
      invariant 0 <= i <= |es|
      invariant nearest == Nearest(es[..i], dist[..i], t)
    {
      assert es[..i + 1][..i] == es[..i] && dist[..i + 1][..i] == dist[..i];
      if Matches(t, es[i]) && (nearest.None? || dist[i] < dist[nearest.value]) {
        nearest := Some(i);
      }
      i := i + 1;
    }
    assert es[..i] == es && dist[..i] == dist;
  }

  /** `scene.children.find(pred)`: the first matching entity. */
  function FirstMatching(es: seq<Entity>, t: Target): (k: Option<nat>)
    ensures k.None? <==> forall i :: 0 <= i < |es| ==> !Matches(t, es[i])
    ensures k.Some? ==> k.value < |es| && Matches(t, es[k.value]) &&
                        forall i :: 0 <= i < k.value ==> !Matches(t, es[i])
  {
    if |es| == 0 then None
    else if Matches(t, es[0]) then Some(0)
    else
      var k := FirstMatching(es[1..], t);
      assert forall i :: 1 <= i < |es| ==> es[1..][i - 1] == es[i];
      if k.Some? then Some(k.value + 1) else None
  }
}
