/**
 * The at-least-n engine: the probability that at least n of a list of
 * independent trials succeed. Each function below is one of the engine's
 * memoised helpers, taking the fixed probability list `ps` and a prefix bound
 * m meaning "trials 0..m" (m = -1 is the empty prefix). The memo tables only
 * avoid recomputation, so the helpers are modelled as plain functions.
 */
module AtLeastN {
  import opened Results
  import opened PoissonBinomial

  /** The message of the error raised for a non-positive n. */
  const NotPositiveMessage := "n must be greater than 0"

  /** The prefix 0..m has fewer than n trials, or no trials at all. */
  predicate ZeroCondition(m: int, n: int) {
    m + 1 < n || m < 0
  }

  /** `functools.reduce(lambda p, q: p * (1.0 - q), s, acc)`: a left fold. */
  function Reduce(s: seq<real>, acc: real): real {
    if s == [] then acc else Reduce(s[1..], acc * (1.0 - s[0]))
  }

  /** Probability that all of trials 0..m fail. */
  function AllZero(ps: seq<real>, m: int): real
    requires 0 <= m < |ps|
  {
    if m == 0 then 1.0 - ps[m] else Reduce(ps[..m + 1], 1.0)
  }

  /** Probability that at least one of trials 0..m succeeds. */
  function AtLeastOne(ps: seq<real>, m: int): real
    requires 0 <= m < |ps|
  {
    1.0 - AllZero(ps, m)
  }

  /** Probability that exactly one of trials 0..m succeeds. */
  function ExactlyOne(ps: seq<real>, m: int): real
    requires 0 <= m < |ps|
  {
    if m == 0 then ps[m]
    else ps[m] * AllZero(ps, m - 1) + (1.0 - ps[m]) * ExactlyOne(ps, m - 1)
  }

  /** Probability that exactly n of trials 0..m succeed. */
  function ExactlyN(ps: seq<real>, m: int, n: int): real
    requires -1 <= m < |ps| && 1 <= n
    decreases m + 1
  {
    if ZeroCondition(m, n) then 0.0
    else if n == 1 then ExactlyOne(ps, m)
    else ps[m] * ExactlyN(ps, m - 1, n - 1) + (1.0 - ps[m]) * ExactlyN(ps, m - 1, n)
  }

  /** Probability that at least n of trials 0..m succeed. */
  function NOrMore(ps: seq<real>, m: int, n: int): real
    requires -1 <= m < |ps| && 1 <= n
    decreases m + 1
  {
    if ZeroCondition(m, n) then 0.0
    else if n == 1 then AtLeastOne(ps, m)
    else ps[m] * ExactlyN(ps, m - 1, n - 1) + NOrMore(ps, m - 1, n)
  }

  // ---- The helpers compute the distribution ----

  /** The fold multiplies its start value by every failure probability. */
  lemma {:induction false} ReduceIsProduct(s: seq<real>, acc: real)
    ensures Reduce(s, acc) == acc * AllFail(s)
  {
    if s != [] {
      ReduceIsProduct(s[1..], acc * (1.0 - s[0]));
      assert acc * (1.0 - s[0]) * AllFail(s[1..]) == acc * ((1.0 - s[0]) * AllFail(s[1..]));
    }
  }

  /** AllZero is the product of 1 - p over trials 0..m; its m == 0 shortcut agrees with the fold. */
  lemma AllZeroCorrect(ps: seq<real>, m: int)
    requires 0 <= m < |ps|
    ensures AllZero(ps, m) == Reduce(ps[..m + 1], 1.0)
    ensures AllZero(ps, m) == AllFail(ps[..m + 1])
    ensures AllZero(ps, m) == Exactly(ps[..m + 1], 0)
  {
    ReduceIsProduct(ps[..m + 1], 1.0);
    ExactlyZeroIsAllFail(ps[..m + 1]);
    if m == 0 {
      assert ps[..1] == [ps[0]];
      assert [ps[0]][1..] == [];
    }
  }

  /** Trials 0..m are trials 0..m-1 followed by trial m (kept apart so the inductions see no slicing). */
  lemma PrefixSnoc(ps: seq<real>, m: int)
    requires 0 <= m < |ps|
    ensures ps[..m + 1] == ps[..m] + [ps[m]]
  {
  }

  /**
   * The zero condition holds exactly when trials 0..m are fewer than n, and
   * then both exactly n and at least n successes have probability 0.
   */
  lemma ZeroConditionCorrect(ps: seq<real>, m: int, n: int)
    requires -1 <= m < |ps| && 1 <= n
    ensures ZeroCondition(m, n) <==> |ps[..m + 1]| < n
    ensures ZeroCondition(m, n) ==> Exactly(ps[..m + 1], n) == 0.0 && AtLeast(ps[..m + 1], n) == 0.0
  {
    if ZeroCondition(m, n) {
      ExactlyOutOfRange(ps[..m + 1], n);
    }
  }

  /** AtLeastOne is the probability of at least one success among trials 0..m: the complement of all failing. */
  lemma AtLeastOneCorrect(ps: seq<real>, m: int)
    requires 0 <= m < |ps|
    ensures AtLeastOne(ps, m) == 1.0 - AllFail(ps[..m + 1])
    ensures AtLeastOne(ps, m) == AtLeast(ps[..m + 1], 1)
  {
    AllZeroCorrect(ps, m);
    AtLeastOneIsComplement(ps[..m + 1]);
  }

  /** ExactlyOne is the probability of exactly one success among trials 0..m. */
  lemma {:induction false} ExactlyOneCorrect(ps: seq<real>, m: int)
    requires 0 <= m < |ps|
    ensures ExactlyOne(ps, m) == Exactly(ps[..m + 1], 1)
  {
    PrefixSnoc(ps, m);
    ExactlySnoc(ps[..m], ps[m], 1);
    if m == 0 {
      assert ps[..0] == [];
    } else {
      AllZeroCorrect(ps, m - 1);
      ExactlyOneCorrect(ps, m - 1);
      assert ExactlyOne(ps, m) == Branch(ps[m], AllZero(ps, m - 1), ExactlyOne(ps, m - 1));
    }
  }

  /** ExactlyN is the probability of exactly n successes among trials 0..m. */
  lemma {:induction false} ExactlyNCorrect(ps: seq<real>, m: int, n: int)
    requires -1 <= m < |ps| && 1 <= n
    ensures ExactlyN(ps, m, n) == Exactly(ps[..m + 1], n)
    decreases m + 1
  {
    if m < 0 {
      assert ps[..m + 1] == [];
    } else if m + 1 < n {
      ExactlyOutOfRange(ps[..m + 1], n);
    } else if n == 1 {
      ExactlyOneCorrect(ps, m);
    } else {
      ExactlyNCorrect(ps, m - 1, n - 1);
      ExactlyNCorrect(ps, m - 1, n);
      PrefixSnoc(ps, m);
      ExactlySnoc(ps[..m], ps[m], n);
      ExactlyNStep(ps, m, n);
    }
  }

  /** The general case of ExactlyN conditions on trial m. */
  lemma ExactlyNStep(ps: seq<real>, m: int, n: int)
    requires 0 <= m < |ps| && 2 <= n <= m + 1
    ensures ExactlyN(ps, m, n) == Branch(ps[m], ExactlyN(ps, m - 1, n - 1), ExactlyN(ps, m - 1, n))
  {
    ExactlyNUnfold(ps, m, n);
  }

  /** One unfolding of ExactlyN's general case, with Branch written out. */
  lemma ExactlyNUnfold(ps: seq<real>, m: int, n: int)
    requires 0 <= m < |ps| && 2 <= n <= m + 1
    ensures ExactlyN(ps, m, n) == ps[m] * ExactlyN(ps, m - 1, n - 1) + (1.0 - ps[m]) * ExactlyN(ps, m - 1, n)
  {
  }

  /** NOrMore is the probability of at least n successes among trials 0..m. */
  lemma {:induction false} NOrMoreCorrect(ps: seq<real>, m: int, n: int)
    requires -1 <= m < |ps| && 1 <= n
    ensures NOrMore(ps, m, n) == AtLeast(ps[..m + 1], n)
    decreases m + 1
  {
    if m < 0 {
      assert ps[..m + 1] == [];
    } else if m + 1 < n {
    } else if n == 1 {
      AtLeastOneCorrect(ps, m);
    } else {
      ExactlyNCorrect(ps, m - 1, n - 1);
      NOrMoreCorrect(ps, m - 1, n);
      NOrMoreStep(ps, m, n);
      AtLeastPrefixSnoc(ps, m, n);
    }
  }

  /** Sum of ExactlyN(ps, m, k) for lo <= k <= hi. */
  function SumExactlyN(ps: seq<real>, m: int, lo: int, hi: int): real
    requires -1 <= m < |ps| && 1 <= lo
    decreases hi - lo
  {
    if lo > hi then 0.0 else ExactlyN(ps, m, lo) + SumExactlyN(ps, m, lo + 1, hi)
  }

  lemma {:induction false} SumExactlyNCorrect(ps: seq<real>, m: int, lo: int, hi: int)
    requires -1 <= m < |ps| && 1 <= lo
    ensures SumExactlyN(ps, m, lo, hi) == SumExactly(ps[..m + 1], lo, hi)
    decreases hi - lo
  {
    if lo <= hi {
      ExactlyNCorrect(ps, m, lo);
      SumExactlyNCorrect(ps, m, lo + 1, hi);
    }
  }

  /**
   * In the engine's own terms: at least n of trials 0..m is the sum of
   * exactly k of them, for k = n..m+1.
   */
  lemma NOrMoreIsSumOfExactlyN(ps: seq<real>, m: int, n: int)
    requires -1 <= m < |ps| && 1 <= n
    ensures NOrMore(ps, m, n) == SumExactlyN(ps, m, n, m + 1)
  {
    NOrMoreCorrect(ps, m, n);
    SumExactlyNCorrect(ps, m, n, m + 1);
  }

  /**
   * The general case of NOrMore, with the count before trial m given by the
   * reference definition: trial m supplies the n-th success, or n are reached before it.
   */
  lemma NOrMoreStep(ps: seq<real>, m: int, n: int)
    requires 0 <= m < |ps| && 2 <= n <= m + 1
    requires ExactlyN(ps, m - 1, n - 1) == Exactly(ps[..m], n - 1)
    ensures NOrMore(ps, m, n) == ps[m] * Exactly(ps[..m], n - 1) + NOrMore(ps, m - 1, n)
  {
    NOrMoreUnfold(ps, m, n);
    ReplaceFactor(NOrMore(ps, m, n), ps[m], ExactlyN(ps, m - 1, n - 1), Exactly(ps[..m], n - 1), NOrMore(ps, m - 1, n));
  }

  /** One unfolding of NOrMore's general case. */
  lemma NOrMoreUnfold(ps: seq<real>, m: int, n: int)
    requires 0 <= m < |ps| && 2 <= n <= m + 1
    ensures NOrMore(ps, m, n) == ps[m] * ExactlyN(ps, m - 1, n - 1) + NOrMore(ps, m - 1, n)
  {
  }

  /** Replacing a factor by an equal value (on plain reals, so no definition is unfolded). */
  lemma ReplaceFactor(v: real, p: real, x: real, e: real, r: real)
    requires v == p * x + r && x == e
    ensures v == p * e + r
  {
  }

  /** AtLeastSnoc for the prefix of trials 0..m. */
  lemma AtLeastPrefixSnoc(ps: seq<real>, m: int, n: int)
    requires 0 <= m < |ps|
    ensures AtLeast(ps[..m + 1], n) == ps[m] * Exactly(ps[..m], n - 1) + AtLeast(ps[..m], n)
  {
    PrefixSnoc(ps, m);
    AtLeastSnoc(ps[..m], ps[m], n);
  }

  /**
   * `AtLeastN(probabilities).compute(n)`: fails for n < 1, before looking at
   * the list; otherwise the probability that at least n of all the trials succeed.
   */
  function Compute(ps: seq<real>, n: int): (r: Result<real>)
    ensures n < 1 ==> r == Failure(NotPositiveMessage)
    ensures n >= 1 ==> r == Success(AtLeast(ps, n))
    ensures n >= 1 && n > |ps| ==> r == Success(0.0)
    ensures IsProbabilities(ps) && r.Success? ==> 0.0 <= r.value <= 1.0
  {
    if n < 1 then Failure(NotPositiveMessage)
    else
      NOrMoreCorrect(ps, |ps| - 1, n);
      assert ps[..|ps|] == ps;
      AtLeastBoundsWhenProbabilities(ps, n);
      Success(NOrMore(ps, |ps| - 1, n))
  }

  /** The module-level wrapper `at_least_n(probabilities, n)`. */
  function AtLeastN(probabilities: seq<real>, n: int): Result<real> {
    Compute(probabilities, n)
  }

  // ---- Properties of the engine's result ----

  /** The result does not depend on the order of the probabilities. */
  lemma ComputePermutationInvariant(ps: seq<real>, qs: seq<real>, n: int)
    requires multiset(ps) == multiset(qs)
    ensures Compute(ps, n) == Compute(qs, n)
  {
    if n >= 1 {
      AtLeastPermutation(ps, qs, n);
    }
  }

  /** Requiring one more success never raises the result. */
  lemma ComputeMonotone(ps: seq<real>, n: int)
    requires IsProbabilities(ps) && 1 <= n
    ensures Compute(ps, n + 1).value <= Compute(ps, n).value
  {
    AtLeastMonotone(ps, n);
  }

  /** At least one success among the trials is the complement of all failures. */
  lemma ComputeOneIsComplement(ps: seq<real>)
    ensures Compute(ps, 1) == Success(1.0 - AllFail(ps))
  {
    AtLeastOneIsComplement(ps);
  }
}
