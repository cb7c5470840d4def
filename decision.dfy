/** decisionModel.js, and its verbatim copy at test-old-markov/robot.js:27-77:
    a priority sort that keeps the most urgent sensed state, and a fixed
    switch from that state to the next action. */
module Decision {
  import opened Wrappers
  import opened StateSpace

  /** The `PRIORITY` table; states without an entry have none. */
  function Priority(s: State): (p: Option<nat>)
    ensures p.Some? <==> s in {ChargingNeeded, SeeingChgStationAhead, SeeingObstacleAhead, CollectingObj, MovingFwd}
    ensures p.Some? ==> 1 <= p.value <= 5
  {
    match s
    case ChargingNeeded => Some(1)
    case SeeingChgStationAhead => Some(2)
    case SeeingObstacleAhead => Some(3)
    case CollectingObj => Some(4)
    case MovingFwd => Some(5)
    case _ => None
  }

  /** The comparator `PRIORITY[a] - PRIORITY[b]`. A missing entry makes it
      `NaN`, which `Array.prototype.sort` treats as `+0`. */
  function Compare(a: State, b: State): (c: int)
    ensures Priority(a).Some? && Priority(b).Some? ==>
              (c < 0 <==> Priority(a).value < Priority(b).value) &&
              (c > 0 <==> Priority(a).value > Priority(b).value)
    ensures Priority(a).Some? && Priority(b).Some? ==> (c == 0 <==> a == b)
    ensures Priority(a).None? || Priority(b).None? ==> c == 0
    ensures -4 <= c <= 4
  {
    if Priority(a).Some? && Priority(b).Some? then Priority(a).value - Priority(b).value else 0
  }

  /** Swapping the arguments negates the comparator, `NaN` included. */
  lemma CompareAntisymmetric(a: State, b: State)
    ensures Compare(a, b) == -Compare(b, a)
  {
  }

  /** On states with a priority the comparator orders transitively, so
      every sort sees one ranking; a state without one compares equal to
      everything, which breaks transitivity. */
  lemma CompareTransitive(a: State, b: State, c: State)
    requires Priority(a).Some? && Priority(b).Some? && Priority(c).Some?
    ensures Compare(a, b) <= 0 && Compare(b, c) <= 0 ==> Compare(a, c) <= 0
    ensures Compare(a, b) < 0 && Compare(b, c) < 0 ==> Compare(a, c) < 0
  {
  }

  /** A state without a priority ties with every state, so a prioritized
      pair `a < c` can both tie with it. */
  lemma NaNBreaksTransitivity()
    ensures Compare(ChargingNeeded, Awaiting) == 0 && Compare(Awaiting, MovingFwd) == 0
    ensures Compare(ChargingNeeded, MovingFwd) < 0
  {
  }

  predicate AllPrioritized(s: seq<State>)
  {
    forall i :: 0 <= i < |s| ==> Priority(s[i]).Some?
  }

  /** The priority as a number, `0` for a state without one. On states that
      all have a priority, `Compare(a, b) == Rank(a) - Rank(b)`. */
  function Rank(s: State): nat
  {
    if Priority(s).Some? then Priority(s).value else 0
  }

  /** Ascending by priority between positions `lo` and `hi`. */
  predicate SortedBetween(s: seq<State>, lo: int, hi: int)
  {
    forall k, l :: lo <= k < l < hi && 0 <= k && l < |s| ==> Rank(s[k]) <= Rank(s[l])
  }

  predicate SortedByPriority(s: seq<State>)
  {
    SortedBetween(s, 0, |s|)
  }

  lemma CompareIsRankDifference(a: State, b: State)
    requires Priority(a).Some? && Priority(b).Some?
    ensures Compare(a, b) == Rank(a) - Rank(b)
  {
  }

  /** Exchange `states[j - 1]` and `states[j]`. */
  method Swap(states: array<State>, j: nat)
    requires 0 < j < states.Length
    modifies states
    ensures states[..] == old(states[..])[j - 1 := old(states[j])][j := old(states[j - 1])]
    ensures multiset(states[..]) == multiset(old(states[..]))
  {
    states[j - 1], states[j] := states[j], states[j - 1];
  }

  /** Mid-pass invariant: apart from the element being sunk, at `j`, the
      first `i + 1` positions are ascending, and everything right of `j`
      ranks at least as high as it. */
  predicate Sinking(s: seq<State>, i: nat, j: nat)
    requires j <= i < |s|
  {
    AllPrioritized(s) &&
    (forall k, l :: 0 <= k < l <= i && k != j && l != j ==> Rank(s[k]) <= Rank(s[l])) &&
    (forall l :: j < l <= i ==> Rank(s[j]) <= Rank(s[l]))
  }

  lemma SinkStarts(s: seq<State>, i: nat)
    requires i < |s| && AllPrioritized(s) && SortedBetween(s, 0, i)
    ensures Sinking(s, i, i)
  {
  }

  lemma SinkSteps(s: seq<State>, i: nat, j: nat)
    requires 0 < j <= i < |s| && Sinking(s, i, j) && Rank(s[j - 1]) > Rank(s[j])
    ensures Sinking(s[j - 1 := s[j]][j := s[j - 1]], i, j - 1)
  {
    var t := s[j - 1 := s[j]][j := s[j - 1]];
    forall k | 0 <= k < |t|
      ensures Priority(t[k]).Some?
    {
      assert t[k] == s[k] || t[k] == s[j] || t[k] == s[j - 1];
    }
  }

  lemma SinkEnds(s: seq<State>, i: nat, j: nat)
    requires j <= i < |s| && Sinking(s, i, j)
    requires j == 0 || Rank(s[j - 1]) <= Rank(s[j])
    ensures SortedBetween(s, 0, i + 1)
  {
  }

  /** One pass of the insertion sort: sink `states[i]` into the sorted
      prefix `states[..i]`, swapping while its left neighbour compares
      strictly greater. */
  method Sink(states: array<State>, i: nat)
    requires i < states.Length
    modifies states
    ensures multiset(states[..]) == multiset(old(states[..]))
    ensures AllPrioritized(old(states[..])) && SortedBetween(old(states[..]), 0, i) ==>
              AllPrioritized(states[..]) && SortedBetween(states[..], 0, i + 1)
  {
    ghost var ranked := AllPrioritized(states[..]) && SortedBetween(states[..], 0, i);
    if ranked {
      SinkStarts(states[..], i);
    }
    var j := i;
    while j > 0 && Compare(states[j - 1], states[j]) > 0
      invariant 0 <= j <= i
      invariant multiset(states[..]) == multiset(old(states[..]))
      invariant ranked ==> Sinking(states[..], i, j)
    {
      if ranked {
        CompareIsRankDifference(states[j - 1], states[j]);
        SinkSteps(states[..], i, j);
      }
      Swap(states, j);
      j := j - 1;
    }
    if ranked {
      if j > 0 {
        CompareIsRankDifference(states[j - 1], states[j]);
      }
      SinkEnds(states[..], i, j);
    }
  }

  /** `resolveStateConflict(states)`: `states.sort(comparator)[0]`, with the
      sort done in place as an insertion sort. The empty array yields
      `undefined`. */
  method ResolveStateConflict(states: array<State>) returns (resolved: Option<State>)
    modifies states
    ensures multiset(states[..]) == multiset(old(states[..]))
    ensures AllPrioritized(old(states[..])) ==> AllPrioritized(states[..]) && SortedByPriority(states[..])
    ensures resolved == if states.Length == 0 then None else Some(states[0])
  {
    ghost var ranked := AllPrioritized(states[..]);
    var i := 0;
    while i < states.Length
      invariant 0 <= i <= states.Length
      invariant multiset(states[..]) == multiset(old(states[..]))
      invariant ranked ==> AllPrioritized(states[..]) && SortedBetween(states[..], 0, i)
    {
      Sink(states, i);
      i := i + 1;
    }
    resolved := if states.Length == 0 then None else Some(states[0]);
  }

  /** The first element of a priority-sorted permutation is a most urgent
      state of the input. */
  lemma SortedHeadIsMinimum(input: seq<State>, sorted: seq<State>)
    requires multiset(sorted) == multiset(input) && |input| > 0
    requires SortedByPriority(sorted)
    ensures sorted[0] in input
    ensures forall x :: x in input ==> Rank(sorted[0]) <= Rank(x)
  {
    assert |sorted| == |multiset(sorted)| == |multiset(input)| == |input|;
    assert sorted[0] in multiset(sorted);
    forall x | x in input
      ensures Rank(sorted[0]) <= Rank(x)
    {
      assert x in multiset(input);
      var k :| 0 <= k < |sorted| && sorted[k] == x;
    }
  }

  /** The angular speed of a decision: `0` or `Math.PI / 8`. */
  datatype Turn = Straight | EighthTurn

  /** `{ state, angularSpeed }`; the state is `undefined` when nothing was sensed. */
  datatype Decision = Decision(state: Option<State>, angularSpeed: Turn)

  /** The switch of `getNextState` on the resolved state. */
  function Decide(resolved: Option<State>, sensed: seq<State>): (d: Decision)
    ensures resolved == Some(Awaiting) ==> d == Decision(Some(MovingFwd), Straight)
    ensures resolved == Some(MovingFwd) ==>
              d == Decision(Some(if SeeingObjAhead in sensed then CollectingObj else MovingFwd), Straight)
    ensures resolved == Some(ChargingNeeded) ==> d == Decision(Some(RotatingLeft), EighthTurn)
    ensures resolved == Some(SeeingChgStationAhead) ==> d == Decision(Some(MovingFwdDecelerate), Straight)
    ensures resolved !in {Some(Awaiting), Some(MovingFwd), Some(ChargingNeeded), Some(SeeingChgStationAhead)} ==>
              d == Decision(resolved, Straight)
    ensures d.angularSpeed == EighthTurn <==> resolved == Some(ChargingNeeded)
  {
    match resolved
    case Some(Awaiting) => Decision(Some(MovingFwd), Straight)
    case Some(MovingFwd) =>
      if SeeingObjAhead in sensed then Decision(Some(CollectingObj), Straight)
      else Decision(Some(MovingFwd), Straight)
    case Some(ChargingNeeded) => Decision(Some(RotatingLeft), EighthTurn)
    case Some(SeeingChgStationAhead) => Decision(Some(MovingFwdDecelerate), Straight)
    case _ => Decision(resolved, Straight)
  }

  class DecisionModel {
    var currentState: State

    constructor ()
      ensures currentState == Awaiting
    {
      currentState := Awaiting;
    }

    /** `getNextState(currentState, sensoryStates)`: resolve (sorting the
        caller's array), then switch. `currentState` is not consulted. */
    method GetNextState(currentState: State, sensoryStates: array<State>) returns (next: Decision)
      modifies sensoryStates
      ensures multiset(sensoryStates[..]) == multiset(old(sensoryStates[..]))
      ensures next == Decide(if sensoryStates.Length == 0 then None else Some(sensoryStates[0]), old(sensoryStates[..]))
      ensures AllPrioritized(old(sensoryStates[..])) && sensoryStates.Length > 0 ==>
                next == Decide(Some(sensoryStates[0]), old(sensoryStates[..])) &&
                forall x :: x in old(sensoryStates[..]) ==> Rank(sensoryStates[0]) <= Rank(x)
      ensures AllPrioritized(old(sensoryStates[..])) ==> SortedByPriority(sensoryStates[..])
      ensures AllPrioritized(old(sensoryStates[..])) && sensoryStates.Length > 0 ==>
                next == if ChargingNeeded in old(sensoryStates[..]) then Decision(Some(RotatingLeft), EighthTurn)
                        else if SeeingChgStationAhead in old(sensoryStates[..]) then Decision(Some(MovingFwdDecelerate), Straight)
                        else if SeeingObstacleAhead in old(sensoryStates[..]) then Decision(Some(SeeingObstacleAhead), Straight)
                        else if CollectingObj in old(sensoryStates[..]) then Decision(Some(CollectingObj), Straight)
                        else Decision(Some(MovingFwd), Straight)
    {
      var resolvedState := ResolveStateConflict(sensoryStates);
      if AllPrioritized(old(sensoryStates[..])) && sensoryStates.Length > 0 {
        SortedHeadIsMinimum(old(sensoryStates[..]), sensoryStates[..]);
        DecisionOnPrioritizedInput(old(sensoryStates[..]), sensoryStates[..]);
      }
      assert forall x :: x in sensoryStates[..] <==> x in old(sensoryStates[..]) by {
        forall x ensures x in sensoryStates[..] <==> x in old(sensoryStates[..]) {
          assert x in sensoryStates[..] <==> x in multiset(sensoryStates[..]);
          assert x in old(sensoryStates[..]) <==> x in multiset(old(sensoryStates[..]));
        }
      }
      next := Decide(resolvedState, sensoryStates[..]);
    }
  }

  /** For a sensed list drawn from the `PRIORITY` keys, the decision follows
      the most urgent state present. */
  lemma DecisionOnPrioritizedInput(input: seq<State>, sorted: seq<State>)
    requires multiset(sorted) == multiset(input) && |input| > 0
    requires AllPrioritized(input) && SortedByPriority(sorted)
    ensures Decide(Some(sorted[0]), input) ==
      if ChargingNeeded in input then Decision(Some(RotatingLeft), EighthTurn)
      else if SeeingChgStationAhead in input then Decision(Some(MovingFwdDecelerate), Straight)
      else if SeeingObstacleAhead in input then Decision(Some(SeeingObstacleAhead), Straight)
      else if CollectingObj in input then Decision(Some(CollectingObj), Straight)
      else Decision(Some(MovingFwd), Straight)
  {
    SortedHeadIsMinimum(input, sorted);
    forall k | 0 <= k < |input|
      ensures input[k] != SeeingObjAhead
    {
      assert Priority(input[k]).Some?;
    }
    if ChargingNeeded in input {
      assert Rank(sorted[0]) <= 1;
    } else if SeeingChgStationAhead in input {
      assert Rank(sorted[0]) <= 2;
    } else if SeeingObstacleAhead in input {
      assert Rank(sorted[0]) <= 3;
    } else if CollectingObj in input {
      assert Rank(sorted[0]) <= 4;
    }
  }
}
