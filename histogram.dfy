/** The sampling experiment of test-old-markov/robot.js:13-23: build a chain
    from the shipped matrix, sample 1000 successors of `movingFwd`, and
    count how often each state comes up. */
module Histogram {
  import opened StateSpace
  import Markov

  const Trials: nat := 1000

  /** The sampled successor of `movingFwd` for one draw. */
  function Successor(r: real): int
  {
    Markov.SampledIndex(Shipped[Index(MovingFwd)], r)
  }

  /** How many of `draws` sample state index `s`. */
  function Hits(draws: seq<real>, s: int): (n: nat)
    ensures n <= |draws|
  {
    if |draws| == 0 then 0
    else Hits(draws[..|draws| - 1], s) + (if Successor(draws[|draws| - 1]) == s then 1 else 0)
  }

  function Total(counts: seq<int>): int
  {
    if |counts| == 0 then 0 else Total(counts[..|counts| - 1]) + counts[|counts| - 1]
  }

  function HitsTable(draws: seq<real>): (t: seq<int>)
    ensures |t| == StateCount
  {
    seq(StateCount, s requires 0 <= s < StateCount => Hits(draws, s))
  }

  /** Bumping one entry bumps the total by one. */
  lemma {:induction false} TotalBump(counts: seq<int>, k: nat)
    requires k < |counts|
    ensures Total(counts[k := counts[k] + 1]) == Total(counts) + 1
  {
    var c := counts[k := counts[k] + 1];
    if k < |counts| - 1 {
      assert c[..|c| - 1] == counts[..|counts| - 1][k := counts[k] + 1];
      TotalBump(counts[..|counts| - 1], k);
    } else {
      assert c[..|c| - 1] == counts[..|counts| - 1];
    }
  }

  /** Every draw lands in exactly one bucket: the buckets sum to the number
      of draws. */
  lemma {:induction false} HitsSumToDraws(draws: seq<real>)
    requires forall i :: 0 <= i < |draws| ==> 0.0 <= draws[i]
    ensures Total(HitsTable(draws)) == |draws|
  {
    if |draws| == 0 {
      var zero := HitsTable(draws);
      assert forall k :: 0 <= k <= StateCount ==> Total(zero[..k]) == 0 by {
        forall k | 0 <= k <= StateCount ensures Total(zero[..k]) == 0 {
          ZeroTotal(zero, k);
        }
      }
      assert zero[..StateCount] == zero;
    } else {
      var init := draws[..|draws| - 1];
      var s := Successor(draws[|draws| - 1]);
      SuccessorInRange(draws[|draws| - 1]);
      HitsSumToDraws(init);
      HitsTableStep(draws, s);
      TotalBump(HitsTable(init), s);
    }
  }

  lemma SuccessorInRange(r: real)
    requires 0.0 <= r
    ensures 0 <= Successor(r) < StateCount
  {
    Markov.ShippedSampleInRange(Index(MovingFwd), r);
  }

  /** One more draw bumps exactly the bucket of its successor. */
  lemma HitsTableStep(draws: seq<real>, s: nat)
    requires |draws| > 0 && s < StateCount && s == Successor(draws[|draws| - 1])
    ensures HitsTable(draws) == HitsTable(draws[..|draws| - 1])[s := HitsTable(draws[..|draws| - 1])[s] + 1]
  {
  }

  lemma {:induction false} ZeroTotal(zero: seq<int>, k: nat)
    requires k <= |zero| && forall j :: 0 <= j < |zero| ==> zero[j] == 0
    ensures Total(zero[..k]) == 0
  {
    if k > 0 {
      assert zero[..k][..k - 1] == zero[..k - 1];
      ZeroTotal(zero, k - 1);
    }
  }

  /** With draws in `[0, 1)`, a state the `movingFwd` row gives probability
      zero never appears in the histogram. */
  lemma {:induction false} ImpossibleSuccessorsNeverCounted(draws: seq<real>, s: nat)
    requires forall i :: 0 <= i < |draws| ==> 0.0 <= draws[i] < 1.0
    requires s < StateCount && Shipped[Index(MovingFwd)][s] == 0.0
    ensures Hits(draws, s) == 0
  {
    if |draws| > 0 {
      var row := Shipped[Index(MovingFwd)];
      var r := draws[|draws| - 1];
      ShippedRow(Index(MovingFwd));
      StochasticRowSamples(row, r);
      SampledEntryPositive(row, r);
      ImpossibleSuccessorsNeverCounted(draws[..|draws| - 1], s);
    }
  }

  /** The counting loop: one `newState(movingFwd)` per draw, bumping
      `arr[x.state]`. */
  method Tally(mc: Markov.MarkovChain, draws: seq<real>) returns (arr: array<int>)
    requires mc.transitionMatrix == Shipped
    ensures fresh(arr) && arr[..] == HitsTable(draws)
  {
    arr := new int[StateCount](_ => 0);
    var i := 0;
    while i < |draws|
      invariant 0 <= i <= |draws|
      invariant arr.Length == StateCount
      invariant forall s :: 0 <= s < StateCount ==> arr[s] == Hits(draws[..i], s)
    {
      var x := mc.NewState(Index(MovingFwd), draws[i]);
      assert x.value.state == Successor(draws[i]);
      Markov.ShippedSampleInRange(Index(MovingFwd), draws[i]);
      assert draws[..i + 1][..i] == draws[..i];
      arr[x.value.state] := arr[x.value.state] + 1;
      i := i + 1;
    }
    assert draws[..i] == draws;
  }

  /** The experiment: `new markovChain(matrix)` succeeds on the shipped
      matrix, so the `catch` block is never reached, and the logged array
      holds the count of each sampled state. */
  method RunHistogram(draws: seq<real>) returns (counts: seq<int>)
    requires |draws| == Trials
    requires forall i :: 0 <= i < |draws| ==> 0.0 <= draws[i]
    ensures counts == HitsTable(draws)
    ensures Total(counts) == Trials
  {
    Markov.ShippedPassesExactCheck();
    var built := Markov.NewMarkovChain(Shipped);
    var arr := Tally(built.value, draws);
    HitsSumToDraws(draws);
    counts := arr[..];
  }
}
