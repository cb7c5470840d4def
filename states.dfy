/** The fixed enumeration `STATES` shared by every copy of the behaviour logic
    (robot-test/markov.js:3-22, markov.js:3-22, decisionModel.js:2-21), the
    transition matrix shipped with both Markov chains, and the prefix sums that
    both `newState` loops walk. */
module StateSpace {
  import opened Wrappers

  datatype State =
    | MovingFwd | MovingFwdDecelerate | MovingBack | RotatingLeft | RotatingRight
    | Awaiting | SeeingObjAhead | SeeingObjProximal | CollectingObj
    | CollectingObjFinished | CollisionDetected | SeeingObstacleAhead
    | SeeingObstacleProximal | ChargingNeeded | Charging | ChargingFinished
    | SeeingChgStationAhead | SeeingChgStationProximal

  /** Number of states, `Object.keys(STATES).length`. */
  const StateCount: nat := 18

  /** The states in the order of their integer identity. */
  const All: seq<State> := [
    MovingFwd, MovingFwdDecelerate, MovingBack, RotatingLeft, RotatingRight,
    Awaiting, SeeingObjAhead, SeeingObjProximal, CollectingObj,
    CollectingObjFinished, CollisionDetected, SeeingObstacleAhead,
    SeeingObstacleProximal, ChargingNeeded, Charging, ChargingFinished,
    SeeingChgStationAhead, SeeingChgStationProximal]

  /** The integer a state stands for in `STATES`. */
  function Index(s: State): (i: nat)
    ensures i < StateCount && |All| == StateCount && All[i] == s
  {
    match s
    case MovingFwd => 0
    case MovingFwdDecelerate => 1
    case MovingBack => 2
    case RotatingLeft => 3
    case RotatingRight => 4
    case Awaiting => 5
    case SeeingObjAhead => 6
    case SeeingObjProximal => 7
    case CollectingObj => 8
    case CollectingObjFinished => 9
    case CollisionDetected => 10
    case SeeingObstacleAhead => 11
    case SeeingObstacleProximal => 12
    case ChargingNeeded => 13
    case Charging => 14
    case ChargingFinished => 15
    case SeeingChgStationAhead => 16
    case SeeingChgStationProximal => 17
  }

  /** The state a JavaScript number stands for, if any. */
  function FromIndex(i: int): (s: Option<State>)
    ensures s.Some? <==> 0 <= i < StateCount
    ensures s.Some? ==> Index(s.value) == i
  {
    if 0 <= i < |All| then IndexOfAll(i); Some(All[i]) else None
  }

  lemma IndexOfAll(i: nat)
    requires i < |All|
    ensures Index(All[i]) == i
  {
  }

  lemma AllOfIndex(s: State)
    ensures Index(s) < |All| && All[Index(s)] == s
  {
  }

  /** The key of `STATES` for a state. */
  function Name(s: State): string
  {
    match s
    case MovingFwd => "movingFwd"
    case MovingFwdDecelerate => "movingFwdDecelerate"
    case MovingBack => "movingBack"
    case RotatingLeft => "rotatingLeft"
    case RotatingRight => "rotatingRight"
    case Awaiting => "awaiting"
    case SeeingObjAhead => "seeingObjAhead"
    case SeeingObjProximal => "seeingObjProximal"
    case CollectingObj => "collectingObj"
    case CollectingObjFinished => "collectingObjFinished"
    case CollisionDetected => "collisionDetected"
    case SeeingObstacleAhead => "seeingObstacleAhead"
    case SeeingObstacleProximal => "seeingObstacleProximal"
    case ChargingNeeded => "chargingNeeded"
    case Charging => "charging"
    case ChargingFinished => "chargingFinished"
    case SeeingChgStationAhead => "seeingChgStationAhead"
    case SeeingChgStationProximal => "seeingChgStationProximal"
  }

  /** `getStateName`: the key whose value is `v`, or "unknown". */
  function StateName(v: int): (name: string)
    ensures 0 <= v < StateCount ==> name == Name(All[v])
    ensures !(0 <= v < StateCount) ==> name == "unknown"
  {
    match FromIndex(v)
    case Some(s) => Name(s)
    case None => "unknown"
  }

  /** No key of `STATES` is "unknown", and distinct states have distinct keys,
      so `getStateName` tells every valid state apart from every other value. */
  lemma StateNameRoundTrip(s: State, v: int)
    ensures StateName(Index(s)) != "unknown"
    ensures StateName(v) == StateName(Index(s)) ==> v == Index(s)
  {
    AllOfIndex(s);
    if 0 <= v < StateCount {
      NamesDistinct(s, All[v]);
      IndexOfAll(v);
    }
  }

  /** Distinct states have distinct keys. */
  lemma NamesDistinct(a: State, b: State)
    ensures Name(a) == Name(b) ==> a == b
  {
  }

  /** Membership in a list of detected states, `states.includes(s)`. */
  predicate Includes(states: seq<State>, s: State)
  {
    exists i :: 0 <= i < |states| && states[i] == s
  }

  /** The first member of `order` that `states` includes: the shape of every
      "for (st of list) if (states.includes(st)) return st" loop. */
  function FirstPresent(order: seq<State>, states: seq<State>): (r: Option<State>)
    ensures r.Some? ==> r.value in order && r.value in states
    ensures r.Some? ==> exists k :: 0 <= k < |order| && order[k] == r.value &&
                          forall j :: 0 <= j < k ==> order[j] !in states
    ensures r.None? <==> forall j :: 0 <= j < |order| ==> order[j] !in states
  {
    if |order| == 0 then None
    else if order[0] in states then Some(order[0])
    else
      var rest := FirstPresent(order[1..], states);
      assert forall j :: 1 <= j < |order| ==> order[j] == order[1..][j - 1];
      rest
  }

  /** The first order member present is the one `FirstPresent` returns. */
  lemma {:induction false} FirstPresentAt(order: seq<State>, states: seq<State>, i: nat)
    requires i < |order| && order[i] in states
    requires forall j :: 0 <= j < i ==> order[j] !in states
    ensures FirstPresent(order, states) == Some(order[i])
  {
    if i > 0 {
      assert order[0] !in states;
      assert forall j :: 0 <= j < i - 1 ==> order[1..][j] == order[j + 1];
      FirstPresentAt(order[1..], states, i - 1);
    }
  }

  /** The result of `FirstPresent` depends only on which states are present,
      not on their order or multiplicity in the list. */
  lemma {:induction false} FirstPresentBySet(order: seq<State>, a: seq<State>, b: seq<State>)
    requires forall x :: x in a <==> x in b
    ensures FirstPresent(order, a) == FirstPresent(order, b)
  {
    if |order| > 0 && order[0] !in a {
      FirstPresentBySet(order[1..], a, b);
    }
  }

  // ---------------------------------------------------------------------------
  // Row sums and sampling

  /** `row.reduce((a, elem) => a + elem, 0)` over the first `n` entries. */
  function Prefix(row: seq<real>, n: nat): real
    requires n <= |row|
  {
    if n == 0 then 0.0 else Prefix(row, n - 1) + row[n - 1]
  }

  /** The cumulative probability after entry `j`: `row[0] + ... + row[j]`. */
  function Through(row: seq<real>, j: nat): real
    requires j < |row|
  {
    Prefix(row, j + 1)
  }

  /** The sum of a whole row. */
  function RowSum(row: seq<real>): real
  {
    Prefix(row, |row|)
  }

  /** The index the cumulative walk stops at: the first `i` with
      `r < row[0] + ... + row[i]`, or `None` when `r` is never consumed. */
  function FirstExceeding(row: seq<real>, r: real): (k: Option<nat>)
    ensures k.Some? ==> k.value < |row| && r < Through(row, k.value)
    ensures k.Some? ==> forall j :: 0 <= j < k.value ==> Through(row, j) <= r
    ensures k.None? ==> forall j :: 0 <= j < |row| ==> Through(row, j) <= r
  {
    FirstExceedingFrom(row, r, 0)
  }

  function FirstExceedingFrom(row: seq<real>, r: real, i: nat): (k: Option<nat>)
    requires i <= |row|
    requires forall j :: 0 <= j < i ==> Through(row, j) <= r
    ensures k.Some? ==> i <= k.value < |row| && r < Through(row, k.value)
    ensures k.Some? ==> forall j :: 0 <= j < k.value ==> Through(row, j) <= r
    ensures k.None? ==> forall j :: 0 <= j < |row| ==> Through(row, j) <= r
    decreases |row| - i
  {
    if i == |row| then None
    else if r < Through(row, i) then Some(i)
    else FirstExceedingFrom(row, r, i + 1)
  }

  /** The three facts that pin the stopping index down. */
  lemma FirstExceedingIs(row: seq<real>, r: real, k: nat)
    requires k < |row| && r < Through(row, k)
    requires forall j :: 0 <= j < k ==> Through(row, j) <= r
    ensures FirstExceeding(row, r) == Some(k)
  {
  }

  /** With a non-negative draw the walk stops only at an entry with positive
      probability (the cumulative sum must have grown past `r` there). */
  lemma SampledEntryPositive(row: seq<real>, r: real)
    requires 0.0 <= r
    requires FirstExceeding(row, r).Some?
    ensures row[FirstExceeding(row, r).value] > 0.0
  {
    var k := FirstExceeding(row, r).value;
    assert Through(row, k) == Prefix(row, k) + row[k];
    if k > 0 {
      assert Through(row, k - 1) <= r;
    }
  }

  /** A row summing to one always samples some entry for a draw in [0, 1). */
  lemma StochasticRowSamples(row: seq<real>, r: real)
    requires |row| > 0 && RowSum(row) == 1.0 && 0.0 <= r < 1.0
    ensures FirstExceeding(row, r).Some?
  {
    assert Through(row, |row| - 1) == 1.0;
  }

  predicate AllZero(row: seq<real>)
  {
    forall j :: 0 <= j < |row| ==> row[j] == 0.0
  }

  lemma {:induction false} ZeroPrefix(row: seq<real>, n: nat)
    requires n <= |row|
    requires forall j :: 0 <= j < n ==> row[j] == 0.0
    ensures Prefix(row, n) == 0.0
  {
    if n > 0 {
      ZeroPrefix(row, n - 1);
    }
  }

  /** A terminal row (all zero) never consumes a non-negative draw. */
  lemma ZeroRowNeverSamples(row: seq<real>, r: real)
    requires AllZero(row) && 0.0 <= r
    ensures FirstExceeding(row, r).None?
  {
    forall j | 0 <= j < |row| ensures Through(row, j) <= r {
      ZeroPrefix(row, j + 1);
    }
  }

  /** The unit row `e_k` sends every draw in [0, 1) to `k`. */
  lemma UnitRowSamples(row: seq<real>, k: nat, r: real)
    requires k < |row| && row[k] == 1.0
    requires forall j :: 0 <= j < |row| && j != k ==> row[j] == 0.0
    requires 0.0 <= r < 1.0
    ensures FirstExceeding(row, r) == Some(k)
  {
    forall j | 0 <= j < k ensures Through(row, j) <= r {
      ZeroPrefix(row, j + 1);
    }
    ZeroPrefix(row, k);
    FirstExceedingIs(row, r, k);
  }

  /** The sum of an 18-entry row written out entry by entry. */
  lemma RowSumOf18(row: seq<real>)
    requires |row| == 18
    ensures RowSum(row) == row[0] + row[1] + row[2] + row[3] + row[4] + row[5] + row[6] + row[7]
      + row[8] + row[9] + row[10] + row[11] + row[12] + row[13] + row[14] + row[15] + row[16] + row[17]
  {
    assert Prefix(row, 2) == Prefix(row, 1) + row[1];
    assert Prefix(row, 3) == Prefix(row, 2) + row[2];
    assert Prefix(row, 4) == Prefix(row, 3) + row[3];
    assert Prefix(row, 5) == Prefix(row, 4) + row[4];
    assert Prefix(row, 6) == Prefix(row, 5) + row[5];
    assert Prefix(row, 7) == Prefix(row, 6) + row[6];
    assert Prefix(row, 8) == Prefix(row, 7) + row[7];
    assert Prefix(row, 9) == Prefix(row, 8) + row[8];
    assert Prefix(row, 10) == Prefix(row, 9) + row[9];
    assert Prefix(row, 11) == Prefix(row, 10) + row[10];
    assert Prefix(row, 12) == Prefix(row, 11) + row[11];
    assert Prefix(row, 13) == Prefix(row, 12) + row[12];
    assert Prefix(row, 14) == Prefix(row, 13) + row[13];
    assert Prefix(row, 15) == Prefix(row, 14) + row[14];
    assert Prefix(row, 16) == Prefix(row, 15) + row[15];
    assert Prefix(row, 17) == Prefix(row, 16) + row[16];
    assert Prefix(row, 18) == Prefix(row, 17) + row[17];
  }

  // ---------------------------------------------------------------------------
  // The shipped transition matrix

  /** `matrix`, identical in robot-test/markov.js:102-121 and markov.js:125-144. */
  const Shipped: seq<seq<real>> := [
    [0.8, 0.0, 0.0, 0.1, 0.1, 0.0, 0.0, 0.0, 0.0, 0.0, 0.0, 0.0, 0.0, 0.0, 0.0, 0.0, 0.0, 0.0],
    [0.0, 1.0, 0.0, 0.0, 0.0, 0.0, 0.0, 0.0, 0.0, 0.0, 0.0, 0.0, 0.0, 0.0, 0.0, 0.0, 0.0, 0.0],
    [0.0, 0.0, 0.0, 0.4, 0.4, 0.2, 0.0, 0.0, 0.0, 0.0, 0.0, 0.0, 0.0, 0.0, 0.0, 0.0, 0.0, 0.0],
    [0.4, 0.0, 0.0, 0.4, 0.0, 0.2, 0.0, 0.0, 0.0, 0.0, 0.0, 0.0, 0.0, 0.0, 0.0, 0.0, 0.0, 0.0],
    [0.4, 0.0, 0.0, 0.0, 0.4, 0.2, 0.0, 0.0, 0.0, 0.0, 0.0, 0.0, 0.0, 0.0, 0.0, 0.0, 0.0, 0.0],
    [0.8, 0.0, 0.0, 0.1, 0.1, 0.0, 0.0, 0.0, 0.0, 0.0, 0.0, 0.0, 0.0, 0.0, 0.0, 0.0, 0.0, 0.0],
    [0.0, 1.0, 0.0, 0.0, 0.0, 0.0, 0.0, 0.0, 0.0, 0.0, 0.0, 0.0, 0.0, 0.0, 0.0, 0.0, 0.0, 0.0],
    [0.0, 0.0, 0.0, 0.0, 0.0, 0.0, 0.0, 0.0, 1.0, 0.0, 0.0, 0.0, 0.0, 0.0, 0.0, 0.0, 0.0, 0.0],
    [0.0, 0.0, 0.0, 0.0, 0.0, 0.0, 0.0, 0.0, 1.0, 0.0, 0.0, 0.0, 0.0, 0.0, 0.0, 0.0, 0.0, 0.0],
    [0.4, 0.0, 0.0, 0.2, 0.2, 0.2, 0.0, 0.0, 0.0, 0.0, 0.0, 0.0, 0.0, 0.0, 0.0, 0.0, 0.0, 0.0],
    [0.0, 0.0, 0.2, 0.4, 0.4, 0.0, 0.0, 0.0, 0.0, 0.0, 0.0, 0.0, 0.0, 0.0, 0.0, 0.0, 0.0, 0.0],
    [0.0, 0.4, 0.0, 0.3, 0.3, 0.0, 0.0, 0.0, 0.0, 0.0, 0.0, 0.0, 0.0, 0.0, 0.0, 0.0, 0.0, 0.0],
    [0.0, 0.0, 0.2, 0.4, 0.4, 0.0, 0.0, 0.0, 0.0, 0.0, 0.0, 0.0, 0.0, 0.0, 0.0, 0.0, 0.0, 0.0],
    [0.4, 0.0, 0.0, 0.3, 0.3, 0.0, 0.0, 0.0, 0.0, 0.0, 0.0, 0.0, 0.0, 0.0, 0.0, 0.0, 0.0, 0.0],
    [0.0, 0.0, 0.0, 0.0, 0.0, 0.0, 0.0, 0.0, 0.0, 0.0, 0.0, 0.0, 0.0, 0.0, 1.0, 0.0, 0.0, 0.0],
    [0.0, 0.0, 0.0, 0.5, 0.5, 0.0, 0.0, 0.0, 0.0, 0.0, 0.0, 0.0, 0.0, 0.0, 0.0, 0.0, 0.0, 0.0],
    [0.0, 1.0, 0.0, 0.0, 0.0, 0.0, 0.0, 0.0, 0.0, 0.0, 0.0, 0.0, 0.0, 0.0, 0.0, 0.0, 0.0, 0.0],
    [0.0, 0.0, 0.0, 0.0, 0.0, 0.0, 0.0, 0.0, 0.0, 0.0, 0.0, 0.0, 0.0, 0.0, 1.0, 0.0, 0.0, 0.0]]

  /** An 18 x 18 matrix whose rows are non-negative and sum to exactly 1. */
  predicate Stochastic(m: seq<seq<real>>)
  {
    |m| == StateCount &&
    forall i :: 0 <= i < |m| ==>
      |m[i]| == StateCount && RowSum(m[i]) == 1.0 && forall j :: 0 <= j < |m[i]| ==> m[i][j] >= 0.0
  }

  lemma ShippedStochastic()
    ensures Stochastic(Shipped)
  {
    ShippedIsStochastic();
  }

  /** With a draw in [0, 1), every row of a stochastic matrix samples some
      entry, and that entry is positive. */
  lemma StochasticSample(m: seq<seq<real>>, i: nat, r: real)
    requires Stochastic(m) && i < |m| && 0.0 <= r < 1.0
    ensures FirstExceeding(m[i], r).Some? && m[i][FirstExceeding(m[i], r).value] > 0.0
  {
    StochasticRowSamples(m[i], r);
    SampledEntryPositive(m[i], r);
  }

  /** Every row of the shipped matrix has 18 entries, all non-negative, and sums to exactly 1. */
  lemma ShippedIsStochastic()
    ensures |Shipped| == StateCount
    ensures forall i :: 0 <= i < |Shipped| ==> |Shipped[i]| == StateCount
    ensures forall i, j :: 0 <= i < |Shipped| && 0 <= j < |Shipped[i]| ==> Shipped[i][j] >= 0.0
    ensures forall i :: 0 <= i < |Shipped| ==> RowSum(Shipped[i]) == 1.0
  {
    forall i | 0 <= i < |Shipped|
      ensures |Shipped[i]| == StateCount && RowSum(Shipped[i]) == 1.0
      ensures forall j :: 0 <= j < |Shipped[i]| ==> Shipped[i][j] >= 0.0
    {
      ShippedRow(i);
    }
  }

  lemma ShippedRow(i: nat)
    requires i < |Shipped|
    ensures |Shipped[i]| == StateCount && RowSum(Shipped[i]) == 1.0
    ensures forall j :: 0 <= j < |Shipped[i]| ==> Shipped[i][j] >= 0.0
  {
    ShippedRowSum(i);
    ShippedRowNonNegative(i);
  }

  lemma ShippedRowSum(i: nat)
    requires i < |Shipped|
    ensures |Shipped[i]| == StateCount && RowSum(Shipped[i]) == 1.0
  {
    var row := Shipped[i];
    assert |row| == 18;
    RowSumOf18(row);
  }

  lemma ShippedRowNonNegative(i: nat)
    requires i < |Shipped|
    ensures forall j :: 0 <= j < |Shipped[i]| ==> Shipped[i][j] >= 0.0
  {
  }
}
