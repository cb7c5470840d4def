/** The Markov chain of robot-test/markov.js (`MarkovChain`): a validated
    18 x 18 matrix with a tolerance of 0.0001 on row sums, cumulative sampling
    given the draw `r`, and the 2000 ms timeout that forces `awaiting`. */
module TestMarkov {
  import opened Wrappers
  import opened StateSpace

  /** `stateTimeoutDuration`, in milliseconds. */
  const StateTimeoutDuration: real := 2000.0

  /** How far a row sum may be from 1. */
  const Tolerance: real := 0.0001

  function Abs(x: real): real
  {
    if x < 0.0 then -x else x
  }

  /** A row passes the sum test: it sums to 0, or to 1 within the tolerance. */
  predicate SumValid(row: seq<real>)
  {
    RowSum(row) == 0.0 || Abs(RowSum(row) - 1.0) <= Tolerance
  }

  predicate RowValid(row: seq<real>)
  {
    |row| == StateCount && SumValid(row)
  }

  /** A matrix the constructor accepts. */
  predicate Compiles(m: seq<seq<real>>)
  {
    |m| == StateCount && forall i :: 0 <= i < |m| ==> RowValid(m[i])
  }

  /** The outcome of `#checkMatrixCompiles`: success, the row whose sum is
      wrong, or one of the two dimension errors it throws. */
  datatype Check = Compiled | SumErrorInRow(row: nat) | WrongRowCount | WrongColumnCount

  /** `#checkMatrixCompiles`: the row count first, then row by row the column
      count and the sum, stopping at the first row that fails either. */
  method CheckMatrixCompiles(m: seq<seq<real>>) returns (c: Check)
    ensures c == WrongRowCount <==> |m| != StateCount
    ensures c == Compiled <==> Compiles(m)
    ensures c.SumErrorInRow? ==>
      c.row < |m| && |m[c.row]| == StateCount && !SumValid(m[c.row]) &&
      forall j :: 0 <= j < c.row ==> RowValid(m[j])
    ensures c == WrongColumnCount ==>
      exists i :: 0 <= i < |m| && |m[i]| != StateCount && forall j :: 0 <= j < i ==> RowValid(m[j])
  {
    if |m| != StateCount {
      return WrongRowCount;
    }
    var i := 0;
    while i < |m|
      invariant 0 <= i <= |m|
      invariant forall j :: 0 <= j < i ==> RowValid(m[j])
    {
      var row := m[i];
      if |row| != StateCount {
        return WrongColumnCount;
      }
      var sum := RowSum(row);
      if sum != 0.0 && Abs(sum - 1.0) > Tolerance {
        return SumErrorInRow(i);
      }
      i := i + 1;
    }
    return Compiled;
  }

  /** The angular speed `newState` reports: `Math.PI / 60` after a sampled
      transition, `Math.PI / 90` after a forced or fallback one. */
  datatype Angle = PiOver60 | PiOver90

  datatype Sampled = Sampled(state: int, angularSpeed: Angle)

  /** What `newState` returns and the new `lastStateChangeTime`, given the
      old one, the current state, the clock `now` and the draw `r`. An
      invalid current state throws (`Err`) before anything is written. */
  function Step(m: seq<seq<real>>, last: real, current: int, now: real, r: real): (Result<Sampled, int>, real)
    requires Compiles(m)
  {
    if !(0 <= current < |m|) then (Err(current), last)
    else
      var row := m[current];
      var timedOut := now - last > StateTimeoutDuration;
      var last' := if timedOut then now else last;
      if timedOut && row[Index(Awaiting)] > 0.0 then (Ok(Sampled(Index(Awaiting), PiOver90)), last')
      else
        match FirstExceeding(row, r)
        case Some(i) => (Ok(Sampled(i, PiOver60)), if i != current then now else last')
        case None => (Ok(Sampled(current, PiOver90)), last')
  }

  class MarkovChain {
    const transitionMatrix: seq<seq<real>>
    var lastStateChangeTime: real
    const stateTimeoutDuration: real

    ghost predicate Valid()
      reads this
    {
      Compiles(transitionMatrix) && stateTimeoutDuration == StateTimeoutDuration
    }

    /** The part of the constructor after a successful check; `now` stands
        for `performance.now()`. */
    constructor (m: seq<seq<real>>, now: real)
      requires Compiles(m)
      ensures Valid() && transitionMatrix == m && lastStateChangeTime == now
    {
      transitionMatrix := m;
      lastStateChangeTime := now;
      stateTimeoutDuration := StateTimeoutDuration;
    }

    /** `newState(currentState)` with `now` for `performance.now()` and `r`
        for `Math.random()`. */
    method NewState(current: int, now: real, r: real) returns (res: Result<Sampled, int>)
      requires Valid()
      modifies this`lastStateChangeTime
      ensures Valid()
      ensures (res, lastStateChangeTime) == Step(transitionMatrix, old(lastStateChangeTime), current, now, r)
    {
      if !(0 <= current < |transitionMatrix|) {
        return Err(current);
      }
      var probabilities := transitionMatrix[current];
      var cumulativeProbability := 0.0;
      if now - lastStateChangeTime > stateTimeoutDuration {
        lastStateChangeTime := now;
        if probabilities[Index(Awaiting)] > 0.0 {
          return Ok(Sampled(Index(Awaiting), PiOver90));
        }
      }
      var i := 0;
      while i < |probabilities|
        invariant 0 <= i <= |probabilities|
        invariant cumulativeProbability == Prefix(probabilities, i)
        invariant forall j :: 0 <= j < i ==> Through(probabilities, j) <= r
        invariant lastStateChangeTime == (if now - old(lastStateChangeTime) > StateTimeoutDuration then now else old(lastStateChangeTime))
      {
        cumulativeProbability := cumulativeProbability + probabilities[i];
        if r < cumulativeProbability {
          FirstExceedingIs(probabilities, r, i);
          if i != current {
            lastStateChangeTime := now;
          }
          return Ok(Sampled(i, PiOver60));
        }
        i := i + 1;
      }
      return Ok(Sampled(current, PiOver90));
    }
  }

  /** `new MarkovChain(transitionMatrix)`: the check, then either a chain or
      the error the constructor throws. */
  method NewMarkovChain(m: seq<seq<real>>, now: real) returns (chain: Result<MarkovChain, Check>)
    ensures chain.Ok? <==> Compiles(m)
    ensures chain.Ok? ==> fresh(chain.value) && chain.value.Valid() &&
                          chain.value.transitionMatrix == m && chain.value.lastStateChangeTime == now
    ensures chain.Err? ==> chain.error != Compiled
    ensures chain.Err? ==> (chain.error == WrongRowCount <==> |m| != StateCount)
    ensures chain.Err? && chain.error.SumErrorInRow? ==>
              chain.error.row < |m| && |m[chain.error.row]| == StateCount && !SumValid(m[chain.error.row]) &&
              forall j :: 0 <= j < chain.error.row ==> RowValid(m[j])
    ensures chain.Err? && chain.error == WrongColumnCount ==>
              exists i :: 0 <= i < |m| && |m[i]| != StateCount && forall j :: 0 <= j < i ==> RowValid(m[j])
  {
    var compiled := CheckMatrixCompiles(m);
    if compiled != Compiled {
      return Err(compiled);
    }
    var c := new MarkovChain(m, now);
    return Ok(c);
  }

  // ---------------------------------------------------------------------------
  // Properties of `newState`

  /** A state outside the matrix throws "Invalid current state" and writes nothing. */
  lemma InvalidStateThrows(m: seq<seq<real>>, last: real, current: int, now: real, r: real)
    requires Compiles(m)
    ensures Step(m, last, current, now, r).0.Err? <==> !(0 <= current < StateCount)
    ensures Step(m, last, current, now, r).0.Err? ==> Step(m, last, current, now, r).1 == last
  {
  }

  /** Without a forced `awaiting`, the result is the first state whose
      cumulative probability exceeds `r`, and it has positive probability. */
  lemma SampledStateIsFirstExceeding(m: seq<seq<real>>, last: real, current: int, now: real, r: real)
    requires Compiles(m) && 0 <= current < StateCount && 0.0 <= r
    requires !(now - last > StateTimeoutDuration && m[current][Index(Awaiting)] > 0.0)
    requires FirstExceeding(m[current], r).Some?
    ensures Step(m, last, current, now, r).0 == Ok(Sampled(FirstExceeding(m[current], r).value, PiOver60))
    ensures m[current][FirstExceeding(m[current], r).value] > 0.0
  {
    SampledEntryPositive(m[current], r);
  }

  /** A terminal (all-zero) row always yields the current state: the timeout
      cannot force `awaiting` there and the walk never consumes `r`. */
  lemma ZeroRowKeepsState(m: seq<seq<real>>, last: real, current: int, now: real, r: real)
    requires Compiles(m) && 0 <= current < StateCount && 0.0 <= r
    requires AllZero(m[current])
    ensures Step(m, last, current, now, r).0 == Ok(Sampled(current, PiOver90))
  {
    ZeroRowNeverSamples(m[current], r);
  }

  /** After more than 2000 ms, a row that allows `awaiting` yields `awaiting`
      whatever the draw; the time is recorded on every timeout, even when
      `awaiting` is impossible. */
  lemma TimeoutForcesAwaiting(m: seq<seq<real>>, last: real, current: int, now: real, r: real)
    requires Compiles(m) && 0 <= current < StateCount
    requires now - last > StateTimeoutDuration
    ensures m[current][Index(Awaiting)] > 0.0 ==>
      Step(m, last, current, now, r).0 == Ok(Sampled(Index(Awaiting), PiOver90))
    ensures Step(m, last, current, now, r).1 == now
  {
  }

  /** `lastStateChangeTime` changes only on a timeout or when the sampled
      state differs from the current one, and then it becomes `now`. */
  lemma ChangeTimeOnlyOnTimeoutOrChange(m: seq<seq<real>>, last: real, current: int, now: real, r: real)
    requires Compiles(m)
    ensures var (res, last') := Step(m, last, current, now, r);
      last' != last ==>
        last' == now && (now - last > StateTimeoutDuration || (res.Ok? && res.value.state != current))
  {
  }

  /** The sampled state is always a state of the enumeration. */
  lemma SampleInRange(m: seq<seq<real>>, last: real, current: int, now: real, r: real)
    requires Compiles(m)
    ensures var res := Step(m, last, current, now, r).0;
      res.Ok? ==> 0 <= res.value.state < StateCount
  {
  }

  /** The shipped matrix passes validation. */
  lemma ShippedCompiles()
    ensures Compiles(Shipped)
  {
    ShippedIsStochastic();
  }

  /** From `movingFwd` the shipped matrix reaches only `movingFwd`,
      `rotatingLeft` or `rotatingRight`, at any time and for any draw in [0, 1). */
  lemma MovingFwdSuccessors(last: real, now: real, r: real)
    requires 0.0 <= r < 1.0
    ensures Compiles(Shipped)
    ensures var res := Step(Shipped, last, Index(MovingFwd), now, r).0;
      res.Ok? && res.value.state in {Index(MovingFwd), Index(RotatingLeft), Index(RotatingRight)}
  {
    ShippedCompiles();
    var row := Shipped[Index(MovingFwd)];
    var f := FirstExceeding(row, r);
    if f.Some? {
      SampledEntryPositive(row, r);
    }
  }

  /** `charging` is absorbing under `newState` with the shipped matrix: its
      row is the self-loop 1 and gives `awaiting` no probability. */
  lemma ChargingAbsorbing(last: real, now: real, r: real)
    requires 0.0 <= r < 1.0
    ensures Compiles(Shipped)
    ensures Step(Shipped, last, Index(Charging), now, r).0 == Ok(Sampled(Index(Charging), PiOver60))
  {
    ShippedCompiles();
    UnitRowSamples(Shipped[Index(Charging)], Index(Charging), r);
  }
}
