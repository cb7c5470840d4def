/** The four conflict resolvers side by side: robot-test/utils.js,
    markov.js, the `statePriority` override of main.js, and the priority
    sort of decisionModel.js. They follow different orders, so the same
    detection can resolve to different states. */
module Resolvers {
  import opened Wrappers
  import opened StateSpace
  import Markov
  import TestUtils
  import MainLoop
  import Decision

  /** markov.js: an orb ahead wins over everything but a collision, so in
      particular over a proximal obstacle. */
  lemma MarkovOrbAheadFirst(states: seq<State>)
    requires CollisionDetected !in states && SeeingObjAhead in states
    ensures Markov.SolveCurStateConflict(Some(states)) == Markov.Resolved(SeeingObjAhead)
  {
    FirstPresentAt(Markov.OneStates, states, 1);
  }

  /** markov.js: collecting wins over every obstacle state except a collision. */
  lemma MarkovCollectingBeforeObstacles(states: seq<State>)
    requires CollisionDetected !in states && SeeingObjAhead !in states && SeeingObjProximal !in states
    requires CollectingObj in states
    ensures Markov.SolveCurStateConflict(Some(states)) == Markov.Resolved(CollectingObj)
  {
    FirstPresentAt(Markov.OneStates, states, 3);
  }

  /** main.js: collecting wins over everything but a collision. */
  lemma OverrideCollectingFirst(states: seq<State>)
    requires CollisionDetected !in states && CollectingObj in states
    ensures MainLoop.Override(Some(states)) == Some(CollectingObj)
  {
    FirstPresentAt(MainLoop.StatePriority, states, 1);
  }

  /** main.js: a proximal orb wins over any obstacle that is not a collision. */
  lemma OverrideOrbProximalBeforeObstacles(states: seq<State>)
    requires CollisionDetected !in states && CollectingObj !in states && SeeingObjProximal in states
    ensures MainLoop.Override(Some(states)) == Some(SeeingObjProximal)
  {
    FirstPresentAt(MainLoop.StatePriority, states, 2);
  }

  /** main.js: a proximal obstacle wins over an orb that is only ahead. */
  lemma OverrideObstacleProximalBeforeOrbAhead(states: seq<State>)
    requires CollisionDetected !in states && CollectingObj !in states && SeeingObjProximal !in states
    requires SeeingObstacleProximal in states
    ensures MainLoop.Override(Some(states)) == Some(SeeingObstacleProximal)
  {
    FirstPresentAt(MainLoop.StatePriority, states, 3);
  }

  /** robot-test/utils.js on the three pairs where the other orders differ:
      the obstacle wins each time, whereas markov.js picks collecting, the
      orb ahead and the proximal orb, and main.js collecting, the proximal
      obstacle and the proximal orb. */
  lemma TestResolverOnConflicts()
    ensures TestUtils.SolveCurStateConflict([CollectingObj, SeeingObstacleAhead]) == Some(SeeingObstacleAhead)
    ensures TestUtils.SolveCurStateConflict([SeeingObjAhead, SeeingObstacleProximal]) == Some(SeeingObstacleProximal)
    ensures TestUtils.SolveCurStateConflict([SeeingObjProximal, SeeingObstacleProximal]) == Some(SeeingObstacleProximal)
  {
  }

  /** decisionModel.js: any priority-sorted arrangement of the first pair
      starts with the obstacle. */
  lemma SortOnConflict(sorted: seq<State>)
    requires multiset(sorted) == multiset([CollectingObj, SeeingObstacleAhead])
    requires Decision.SortedByPriority(sorted)
    ensures sorted[0] == SeeingObstacleAhead
  {
    var input := [CollectingObj, SeeingObstacleAhead];
    Decision.SortedHeadIsMinimum(input, sorted);
    assert Decision.Rank(sorted[0]) <= Decision.Rank(input[1]);
  }

  /** On a single detected state the resolvers still differ: robot-test/utils.js
      returns it, main.js overrides only with a `statePriority` member, and
      markov.js throws on a lone `seeingChgStationAhead`. */
  lemma SingleState(s: State)
    ensures TestUtils.SolveCurStateConflict([s]) == Some(s)
    ensures MainLoop.Override(Some([s])) == if s in MainLoop.StatePriority then Some(s) else None
    ensures Markov.SolveCurStateConflict(Some([s])) ==
              if s == SeeingChgStationAhead then Markov.Throws else Markov.Resolved(s)
  {
    var r := Markov.SolveCurStateConflict(Some([s]));
    if r.Resolved? {
      assert r.state in [s];
    }
    var o := MainLoop.Override(Some([s]));
    if s in MainLoop.StatePriority {
      assert o.Some? by {
        var k :| 0 <= k < |MainLoop.StatePriority| && MainLoop.StatePriority[k] == s;
        assert MainLoop.StatePriority[k] in [s];
      }
    }
    if s !in Markov.OneStates && s != SeeingChgStationAhead && s != ChargingNeeded {
      assert FirstPresent(Markov.OneStates, [s]).None?;
    }
  }
}
