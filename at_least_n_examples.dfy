/**
 * Worked values of the engine, matching the parameter table of the
 * repository's unit tests for at_least_n (exact, since the model uses reals).
 * Each holds for every reordering of its list as well.
 */
module AtLeastNExamples {
  import opened Results
  import opened PoissonBinomial
  import opened AtLeastN

  /** A single trial: at least one success has exactly its probability. */
  lemma SingleTrial(p: real)
    ensures Compute([p], 1) == Success(p)
  {
    AtLeastCons(p, [], 1);
  }

  /** Every non-positive n is rejected, even for the empty list. */
  lemma NonPositiveRejected(ps: seq<real>, n: int)
    requires n <= 0
    ensures Compute(ps, n) == Failure("n must be greater than 0")
  {
  }

  /** The empty list yields 0.0 for every valid n. */
  lemma EmptyList(n: int)
    requires n >= 1
    ensures Compute([], n) == Success(0.0)
  {
  }

  /** Lists made of certain and impossible trials. */
  lemma CertainTrials(one: seq<real>, two: seq<real>, three: seq<real>)
    requires one == [1.0] && two == [1.0, 0.0] && three == [1.0, 1.0, 0.0]
    ensures Compute(one, 1) == Success(1.0) && Compute(one, 2) == Success(0.0)
    ensures Compute(two, 1) == Success(1.0) && Compute(two, 2) == Success(0.0)
    ensures Compute(three, 1) == Success(1.0)
  {
    SingleTrial(1.0);
    assert two == [1.0] + [0.0];
    assert three == [1.0] + two;
    AtLeastCertainTrial([0.0], 1);
    AtLeastNonPositive([0.0], 0);
    AtLeastCertainTrial([0.0], 2);
    AtLeastImpossibleTrial([], 1);
    AtLeastCertainTrial(two, 1);
    AtLeastNonPositive(two, 0);
  }

  /** The remaining rows of certain and impossible trials. */
  lemma MoreCertainTrials(zero: seq<real>, twoOnes: seq<real>, oneZeroZero: seq<real>, threeOnes: seq<real>)
    requires zero == [0.0] && twoOnes == [1.0, 1.0]
    requires oneZeroZero == [1.0, 0.0, 0.0] && threeOnes == [1.0, 1.0, 1.0]
    ensures Compute(zero, 2) == Success(0.0)
    ensures Compute(twoOnes, 1) == Success(1.0)
    ensures Compute(oneZeroZero, 1) == Success(1.0) && Compute(oneZeroZero, 2) == Success(0.0)
    ensures Compute(threeOnes, 1) == Success(1.0)
  {
    var zeros := [0.0, 0.0];
    assert twoOnes == [1.0] + [1.0];
    assert oneZeroZero == [1.0] + zeros;
    assert threeOnes == [1.0] + twoOnes;
    assert zeros == [0.0] + [0.0] && [0.0] == [0.0] + [];
    AtLeastCertainTrial([1.0], 1);
    AtLeastNonPositive([1.0], 0);
    AtLeastCertainTrial(zeros, 1);
    AtLeastNonPositive(zeros, 0);
    AtLeastCertainTrial(zeros, 2);
    AtLeastImpossibleTrial([0.0], 1);
    AtLeastImpossibleTrial([], 1);
    AtLeastCertainTrial(twoOnes, 1);
    AtLeastNonPositive(twoOnes, 0);
  }

  /** Four fair coins: at least one head is 1 - 1/16. */
  lemma FourFairCoins(ps: seq<real>)
    requires ps == [0.5, 0.5, 0.5, 0.5]
    ensures Compute(ps, 1) == Success(0.9375)
  {
    ComputeOneIsComplement(ps);
    var t3, t2, t1 := [0.5, 0.5, 0.5], [0.5, 0.5], [0.5];
    assert ps[1..] == t3 && t3[1..] == t2 && t2[1..] == t1 && t1[1..] == [];
    assert AllFail(t1) == 0.5;
    assert AllFail(t2) == 0.25;
    assert AllFail(t3) == 0.125;
    assert AllFail(ps) == 0.0625;
  }

  /** Survival values of one, two and three fair coins. */
  lemma FairCoinValues(one: seq<real>, two: seq<real>, three: seq<real>)
    requires one == [0.5] && two == [0.5] + one && three == [0.5] + two
    ensures AtLeast(one, 1) == 0.5 && AtLeast(one, 2) == 0.0
    ensures AtLeast(two, 1) == 0.75 && AtLeast(two, 2) == 0.25 && AtLeast(two, 3) == 0.0
    ensures AtLeast(three, 2) == 0.5 && AtLeast(three, 3) == 0.125
  {
    assert one == [0.5] + [];
    AtLeastNonPositive([], 0);
    AtLeastCons(0.5, [], 1);
    AtLeastCons(0.5, [], 2);
    AtLeastNonPositive(one, 0);
    AtLeastCons(0.5, one, 1);
    AtLeastCons(0.5, one, 2);
    AtLeastCons(0.5, one, 3);
    AtLeastCons(0.5, two, 2);
    AtLeastCons(0.5, two, 3);
  }

  /** Three fair coins: at least two heads, and all three heads. */
  lemma ThreeFairCoins(ps: seq<real>)
    requires ps == [0.5, 0.5, 0.5]
    ensures Compute(ps, 2) == Success(0.5)
    ensures Compute(ps, 3) == Success(0.125)
  {
    FairCoinValues([0.5], [0.5, 0.5], ps);
  }

  /** Survival values of the uncertain tail [0.9, 0.2, 0.1]. */
  lemma TailValues(c: seq<real>, b: seq<real>, a: seq<real>)
    requires c == [0.1] && b == [0.2] + c && a == [0.9] + b
    ensures AtLeast(c, 1) == 0.1 && AtLeast(c, 2) == 0.0
    ensures AtLeast(b, 1) == 0.28 && AtLeast(b, 2) == 0.02
    ensures AtLeast(a, 2) == 0.254
  {
    assert c == [0.1] + [];
    AtLeastNonPositive([], 0);
    AtLeastCons(0.1, [], 1);
    AtLeastCons(0.1, [], 2);
    AtLeastNonPositive(c, 0);
    AtLeastCons(0.2, c, 1);
    AtLeastCons(0.2, c, 2);
    AtLeastCons(0.9, b, 2);
  }

  /** Two trials in front of an impossible one: both must succeed for two successes. */
  lemma ZeroTailValue(x: real, y: real, c: seq<real>, b: seq<real>, a: seq<real>)
    requires c == [0.0] && b == [y] + c && a == [x] + b
    ensures AtLeast(a, 2) == x * y
  {
    assert c == [0.0] + [];
    AtLeastNonPositive(c, 0);
    AtLeastImpossibleTrial([], 1);
    AtLeastCons(y, c, 1);
    AtLeastCons(y, c, 2);
    AtLeastCons(x, b, 2);
  }

  /** Three certain trials in front lift the threshold by three. */
  lemma ThreeCertainFirst(a: seq<real>, ps: seq<real>, k: int)
    requires ps == [1.0, 1.0, 1.0] + a
    ensures AtLeast(ps, k) == AtLeast(a, k - 3)
  {
    assert ps == [1.0] + ([1.0] + ([1.0] + a));
    AtLeastCertainTrial([1.0] + ([1.0] + a), k);
    AtLeastCertainTrial([1.0] + a, k - 1);
    AtLeastCertainTrial(a, k - 2);
  }

  /** The engine's value for three certain trials in front of a list with a known survival value. */
  lemma ShiftedValue(a: seq<real>, ps: seq<real>, k: int, v: real)
    requires ps == [1.0, 1.0, 1.0] + a && k >= 1 && AtLeast(a, k - 3) == v
    ensures Compute(ps, k) == Success(v)
  {
    ThreeCertainFirst(a, ps, k);
  }

  /** Certain trials followed by fair coins. */
  lemma CertainThenFairCoins(p4: seq<real>, p5: seq<real>, p6: seq<real>)
    requires p4 == [1.0, 1.0, 1.0, 0.5] && p5 == [1.0, 1.0, 1.0, 0.5, 0.5]
    requires p6 == [1.0, 1.0, 1.0, 0.5, 0.5, 0.5]
    ensures Compute(p4, 4) == Success(0.5)
    ensures Compute(p5, 5) == Success(0.25)
    ensures Compute(p6, 5) == Success(0.5)
  {
    var one, two, three := p4[3..], p5[3..], p6[3..];
    assert one == [0.5] && two == [0.5] + one && three == [0.5] + two;
    assert p4 == [1.0, 1.0, 1.0] + one && p5 == [1.0, 1.0, 1.0] + two && p6 == [1.0, 1.0, 1.0] + three;
    FairCoinValues(one, two, three);
    ShiftedValue(one, p4, 4, 0.5);
    ShiftedValue(two, p5, 5, 0.25);
    ShiftedValue(three, p6, 5, 0.5);
  }

  /** Certain trials, two uncertain ones and an impossible one. */
  lemma CertainThenZeroTail(p: seq<real>, q: seq<real>)
    requires p == [1.0, 1.0, 1.0, 0.5, 0.5, 0.0] && q == [1.0, 1.0, 1.0, 0.9, 0.2, 0.0]
    ensures Compute(p, 5) == Success(0.25)
    ensures Compute(q, 5) == Success(0.18)
  {
    var c := [0.0];
    ZeroTailValue(0.5, 0.5, c, [0.5] + c, [0.5, 0.5] + c);
    ZeroTailValue(0.9, 0.2, c, [0.2] + c, [0.9, 0.2] + c);
    ShiftedValue([0.5, 0.5] + c, p, 5, 0.25);
    ShiftedValue([0.9, 0.2] + c, q, 5, 0.18);
  }

  /** The largest case of the table: [1, 1, 1, 0.9, 0.2, 0.1] with n = 5. */
  lemma SixTrials(ps: seq<real>)
    requires ps == [1.0, 1.0, 1.0, 0.9, 0.2, 0.1]
    ensures Compute(ps, 5) == Success(0.254)
  {
    var a := ps[3..];
    assert a == [0.9] + [0.2, 0.1] && ps == [1.0, 1.0, 1.0] + a;
    TailValues([0.1], [0.2, 0.1], a);
    ShiftedValue(a, ps, 5, 0.254);
  }

  /** The table's tests also run every permutation of each list. */
  lemma SixTrialsAnyOrder(qs: seq<real>)
    requires multiset(qs) == multiset([1.0, 1.0, 1.0, 0.9, 0.2, 0.1])
    ensures Compute(qs, 5) == Success(0.254)
  {
    var ps := [1.0, 1.0, 1.0, 0.9, 0.2, 0.1];
    SixTrials(ps);
    ComputePermutationInvariant(qs, ps, 5);
  }
}
