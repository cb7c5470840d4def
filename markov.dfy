/** The Markov chain of markov.js (`markovChain`): an exact 0-or-1 row-sum
    check with no dimension check, cumulative sampling that falls back to
    `awaiting`, the angular-speed hint, and `solveCurStateConflict`. */
module Markov {
  import opened Wrappers
  import opened StateSpace

  /** A row passes the exact test `sum != 1 && sum != 0` negated. */
  predicate SumExact(row: seq<real>)
  {
    RowSum(row) == 1.0 || RowSum(row) == 0.0
  }

  predicate AllRowsExact(m: seq<seq<real>>)
  {
    forall i :: 0 <= i < |m| ==> SumExact(m[i])
  }

  /** `#checkMatrixCompiles`: `{res, row}` with `row` the first failing row,
      or -1 when every row passes. */
  method CheckMatrixCompiles(m: seq<seq<real>>) returns (res: bool, row: int)
    ensures res <==> AllRowsExact(m)
    ensures res ==> row == -1
    ensures !res ==> 0 <= row < |m| && !SumExact(m[row]) &&
                     forall j :: 0 <= j < row ==> SumExact(m[j])
  {
    var i := 0;
    while i < |m|
      invariant 0 <= i <= |m|
      invariant forall j :: 0 <= j < i ==> SumExact(m[j])
    {
      var sum := RowSum(m[i]);
      if sum != 1.0 && sum != 0.0 {
        return false, i;
      }
      i := i + 1;
    }
    return true, -1;
  }

  /** The angular-speed hint: 0, `angleSmall` (pi/180) or `angle90` (pi/2). */
  datatype AngleHint = Zero | Small | Ninety

  datatype Sampled = Sampled(state: int, angularSpeed: AngleHint)

  /** `arrForAngle90`. */
  const SharpTurnStates: seq<State> := [CollisionDetected, SeeingObstacleProximal, ChargingFinished]

  predicate IsSharpTurn(current: int)
  {
    exists k :: 0 <= k < |SharpTurnStates| && Index(SharpTurnStates[k]) == current
  }

  lemma SharpTurnStatesAre(current: int)
    ensures IsSharpTurn(current) <==>
      current == Index(CollisionDetected) || current == Index(SeeingObstacleProximal) ||
      current == Index(ChargingFinished)
  {
    if current == Index(CollisionDetected) {
      assert Index(SharpTurnStates[0]) == current;
    } else if current == Index(SeeingObstacleProximal) {
      assert Index(SharpTurnStates[1]) == current;
    } else if current == Index(ChargingFinished) {
      assert Index(SharpTurnStates[2]) == current;
    }
  }

  /** `probabilities[k] > 0`, where an entry past the end is `undefined` and
      the comparison is false. */
  predicate PositiveAt(row: seq<real>, k: nat)
  {
    k < |row| && row[k] > 0.0
  }

  predicate AllowsRotation(row: seq<real>)
  {
    PositiveAt(row, Index(RotatingLeft)) || PositiveAt(row, Index(RotatingRight))
  }

  class MarkovChain {
    const transitionMatrix: seq<seq<real>>

    ghost predicate Valid()
      reads this
    {
      AllRowsExact(transitionMatrix)
    }

    /** The part of the constructor after a successful check. */
    constructor (m: seq<seq<real>>)
      requires AllRowsExact(m)
      ensures Valid() && transitionMatrix == m
    {
      transitionMatrix := m;
    }

    /** `newState(currentState)` with the draw `r` for `Math.random()`. A
        state with no row makes `probabilities.length` throw (`Err`). */
    method NewState(current: int, r: real) returns (res: Result<Sampled, int>)
      ensures res.Err? <==> !(0 <= current < |transitionMatrix|)
      ensures res.Ok? ==>
        var row := transitionMatrix[current];
        res.value.state == (match FirstExceeding(row, r)
                            case Some(i) => i
                            case None => Index(Awaiting))
      ensures res.Ok? ==>
        var row := transitionMatrix[current];
        (res.value.angularSpeed == Ninety <==> IsSharpTurn(current)) &&
        (res.value.angularSpeed == Small <==> !IsSharpTurn(current) && AllowsRotation(row)) &&
        (res.value.angularSpeed == Zero <==> !IsSharpTurn(current) && !AllowsRotation(row))
    {
      if !(0 <= current < |transitionMatrix|) {
        return Err(current);
      }
      var st := Index(Awaiting);
      var probabilities := transitionMatrix[current];
      var cumulativeProbability := 0.0;
      var i := 0;
      while i < |probabilities|
        invariant 0 <= i <= |probabilities|
        invariant cumulativeProbability == Prefix(probabilities, i)
        invariant forall j :: 0 <= j < i ==> Through(probabilities, j) <= r
      {
        cumulativeProbability := cumulativeProbability + probabilities[i];
        if r < cumulativeProbability {
          FirstExceedingIs(probabilities, r, i);
          st := i;
          break;
        }
        i := i + 1;
      }
      var a := Zero;
      if PositiveAt(probabilities, Index(RotatingLeft)) || PositiveAt(probabilities, Index(RotatingRight)) {
        a := Small;
      }
      if current == Index(CollisionDetected) || current == Index(SeeingObstacleProximal)
        || current == Index(ChargingFinished) {
        a := Ninety;
      }
      SharpTurnStatesAre(current);
      return Ok(Sampled(st, a));
    }
  }

  /** `new markovChain(transitionMatrix)`: a chain, or the failing row of the
      error "Matrix sum error in row". */
  method NewMarkovChain(m: seq<seq<real>>) returns (chain: Result<MarkovChain, int>)
    ensures chain.Ok? <==> AllRowsExact(m)
    ensures chain.Ok? ==> fresh(chain.value) && chain.value.transitionMatrix == m
    ensures chain.Err? ==> 0 <= chain.error < |m| && !SumExact(m[chain.error]) &&
                           forall j :: 0 <= j < chain.error ==> SumExact(m[j])
  {
    var res, row := CheckMatrixCompiles(m);
    if !res {
      return Err(row);
    }
    var c := new MarkovChain(m);
    return Ok(c);
  }

  /** The sampled state of a row: the first state whose cumulative
      probability exceeds `r`, or `awaiting` when `r` is never consumed. */
  function SampledIndex(row: seq<real>, r: real): int
  {
    match FirstExceeding(row, r)
    case Some(i) => i
    case None => Index(Awaiting)
  }

  /** A state picked by the walk, `awaiting` included, has positive
      probability; only the fallback when the walk picks nothing may not. */
  lemma SampledHasPositiveProbability(row: seq<real>, r: real)
    requires 0.0 <= r
    requires FirstExceeding(row, r).Some?
    ensures SampledIndex(row, r) == FirstExceeding(row, r).value
    ensures 0 <= SampledIndex(row, r) < |row| && row[SampledIndex(row, r)] > 0.0
  {
    SampledEntryPositive(row, r);
  }

  /** An all-zero row yields `awaiting`, not the current state. */
  lemma ZeroRowGivesAwaiting(row: seq<real>, r: real)
    requires AllZero(row) && 0.0 <= r
    ensures SampledIndex(row, r) == Index(Awaiting)
  {
    ZeroRowNeverSamples(row, r);
  }

  /** The shipped matrix passes the exact check. */
  lemma ShippedPassesExactCheck()
    ensures AllRowsExact(Shipped)
  {
    ShippedIsStochastic();
  }

  /** With the shipped 18 x 18 matrix every sample is a state of the enumeration. */
  lemma ShippedSampleInRange(i: nat, r: real)
    requires i < |Shipped|
    ensures 0 <= SampledIndex(Shipped[i], r) < StateCount
  {
    ShippedStochastic();
    StochasticSampleInRange(Shipped, i, r);
  }

  /** The same for any stochastic matrix. */
  lemma StochasticSampleInRange(m: seq<seq<real>>, i: nat, r: real)
    requires Stochastic(m) && i < |m|
    ensures 0 <= SampledIndex(m[i], r) < StateCount
  {
  }

  // ---------------------------------------------------------------------------
  // solveCurStateConflict

  /** What `solveCurStateConflict` does: a state, `undefined`, or a throw. */
  datatype Resolution = Resolved(state: State) | Undefined | Throws

  /** `oneStates`, tried in this order. */
  const OneStates: seq<State> := [
    CollisionDetected, SeeingObjAhead, SeeingObjProximal, CollectingObj,
    CollectingObjFinished, SeeingObstacleAhead, SeeingObstacleProximal,
    SeeingChgStationProximal]

  /** `solveCurStateConflict(states)`; `None` is a falsy argument, whose
      `.awaiting` access throws. With `seeingChgStationAhead` but no
      `chargingNeeded`, the loop `for (st of states)` assigns the undeclared
      `st` in strict class code and throws. */
  function SolveCurStateConflict(states: Option<seq<State>>): (r: Resolution)
    ensures states.None? ==> r == Throws
    ensures states.Some? && FirstPresent(OneStates, states.value).Some? ==>
      r == Resolved(FirstPresent(OneStates, states.value).value)
    ensures states.Some? && FirstPresent(OneStates, states.value).None? ==>
      var s := states.value;
      (ChargingNeeded in s && SeeingChgStationAhead in s ==> r == Resolved(SeeingChgStationAhead)) &&
      (ChargingNeeded in s && SeeingChgStationAhead !in s ==> r == Resolved(ChargingNeeded)) &&
      (ChargingNeeded !in s && SeeingChgStationAhead in s ==> r == Throws) &&
      (ChargingNeeded !in s && SeeingChgStationAhead !in s ==> r == if s == [] then Undefined else Resolved(s[0]))
    ensures r.Resolved? ==> states.Some? && r.state in states.value
    ensures r == Undefined <==> states == Some([])
  {
    match states
    case None => Throws
    case Some(s) =>
      match FirstPresent(OneStates, s)
      case Some(st) => Resolved(st)
      case None =>
        var chargingNeeded := ChargingNeeded in s;
        if SeeingChgStationAhead in s && chargingNeeded then Resolved(SeeingChgStationAhead)
        else if SeeingChgStationAhead !in s && chargingNeeded then Resolved(ChargingNeeded)
        else if SeeingChgStationAhead in s && !chargingNeeded then Throws
        else if |s| == 0 then Undefined
        else Resolved(s[0])
  }
}
