/**
 * The Poisson-binomial distribution, stated independently of the engine's
 * recursion: independent trials with success probabilities s[0], ..., s[|s|-1].
 * Exactly conditions on the FIRST trial; the engine recurses on the LAST one and
 * is proved equal to these definitions in module AtLeastN.
 */
module PoissonBinomial {

  /** Every trial probability lies in [0, 1]. */
  ghost predicate IsProbabilities(s: seq<real>) {
    forall i :: 0 <= i < |s| ==> 0.0 <= s[i] <= 1.0
  }

  /**
   * Total probability over one trial that succeeds with probability p:
   * `success` is the conditional value if it succeeds, `failure` if it fails.
   */
  function Branch(p: real, success: real, failure: real): real {
    p * success + (1.0 - p) * failure
  }

  /** Probability that exactly k of the trials s succeed. */
  function Exactly(s: seq<real>, k: int): real
    decreases |s|
  {
    if s == [] then (if k == 0 then 1.0 else 0.0)
    else Branch(s[0], Exactly(s[1..], k - 1), Exactly(s[1..], k))
  }

  /** Probability that no trial succeeds: the product of the 1 - s[i]. */
  function AllFail(s: seq<real>): real {
    if s == [] then 1.0 else (1.0 - s[0]) * AllFail(s[1..])
  }

  /** Probability that every trial succeeds: the product of the s[i]. */
  function AllSucceed(s: seq<real>): real {
    if s == [] then 1.0 else s[0] * AllSucceed(s[1..])
  }

  /** Sum of Exactly(s, j) for lo <= j <= hi. */
  function SumExactly(s: seq<real>, lo: int, hi: int): real
    decreases hi - lo
  {
    if lo > hi then 0.0 else Exactly(s, lo) + SumExactly(s, lo + 1, hi)
  }

  /** Probability that at least k of the trials s succeed (the survival function). */
  function AtLeast(s: seq<real>, k: int): real {
    SumExactly(s, k, |s|)
  }

  // ---- Arithmetic facts about Branch, on plain variables ----

  lemma BranchSwap(x: real, y: real, a: real, b: real, c: real)
    ensures Branch(y, Branch(x, a, b), Branch(x, b, c)) == Branch(x, Branch(y, a, b), Branch(y, b, c))
  {
  }

  lemma BranchAdd(x: real, a: real, b: real, c: real, d: real)
    ensures Branch(x, a, b) + Branch(x, c, d) == Branch(x, a + c, b + d)
  {
  }

  lemma BranchNonNegative(x: real, a: real, b: real)
    requires 0.0 <= x <= 1.0 && 0.0 <= a && 0.0 <= b
    ensures 0.0 <= Branch(x, a, b)
  {
    assert x * a >= 0.0;
    assert (1.0 - x) * b >= 0.0;
  }

  // ---- Properties of the distribution ----

  /** The first trial's outcome splits the count: the defining recurrence, for a literal [y] + t. */
  lemma ExactlyCons(y: real, t: seq<real>, k: int)
    ensures Exactly([y] + t, k) == Branch(y, Exactly(t, k - 1), Exactly(t, k))
  {
    assert ([y] + t)[0] == y;
    assert ([y] + t)[1..] == t;
  }

  /** No count outside 0..|s| can occur. */
  lemma {:induction false} ExactlyOutOfRange(s: seq<real>, k: int)
    requires k < 0 || k > |s|
    ensures Exactly(s, k) == 0.0
  {
    if s != [] {
      ExactlyOutOfRange(s[1..], k - 1);
      ExactlyOutOfRange(s[1..], k);
    }
  }

  /** "Exactly zero successes" is the product of the failure probabilities. */
  lemma {:induction false} ExactlyZeroIsAllFail(s: seq<real>)
    ensures Exactly(s, 0) == AllFail(s)
  {
    if s != [] {
      ExactlyOutOfRange(s[1..], -1);
      ExactlyZeroIsAllFail(s[1..]);
    }
  }

  /** Conditioning on the last trial instead of the first gives the same value. */
  lemma {:induction false} ExactlySnoc(s: seq<real>, x: real, k: int)
    ensures Exactly(s + [x], k) == Branch(x, Exactly(s, k - 1), Exactly(s, k))
    decreases |s|
  {
    if s == [] {
      assert s + [x] == [x];
      assert [x][1..] == s;
    } else {
      var y, t := s[0], s[1..];
      assert (s + [x])[0] == y;
      assert (s + [x])[1..] == t + [x];
      ExactlySnoc(t, x, k - 1);
      ExactlySnoc(t, x, k);
      BranchSwap(x, y, Exactly(t, k - 2), Exactly(t, k - 1), Exactly(t, k));
    }
  }

  /** Extending a sum by its next term at the top. */
  lemma {:induction false} SumExactlyTop(s: seq<real>, lo: int, hi: int)
    requires lo <= hi + 1
    ensures SumExactly(s, lo, hi + 1) == SumExactly(s, lo, hi) + Exactly(s, hi + 1)
    decreases hi - lo
  {
    if lo <= hi {
      SumExactlyTop(s, lo + 1, hi);
    }
  }

  /** A sum over the counts of [x] + r, split by the outcome of the first trial. */
  lemma {:induction false} SumExactlyCons(x: real, r: seq<real>, lo: int, hi: int)
    ensures SumExactly([x] + r, lo, hi) == Branch(x, SumExactly(r, lo - 1, hi - 1), SumExactly(r, lo, hi))
    decreases hi - lo
  {
    if lo <= hi {
      ExactlyCons(x, r, lo);
      SumExactlyCons(x, r, lo + 1, hi);
      BranchAdd(x, Exactly(r, lo - 1), Exactly(r, lo), SumExactly(r, lo, hi - 1), SumExactly(r, lo + 1, hi));
    }
  }

  /** A sum over the counts of s + [x], split by the outcome of the last trial. */
  lemma {:induction false} SumExactlySnoc(s: seq<real>, x: real, lo: int, hi: int)
    ensures SumExactly(s + [x], lo, hi) == Branch(x, SumExactly(s, lo - 1, hi - 1), SumExactly(s, lo, hi))
    decreases hi - lo
  {
    if lo <= hi {
      ExactlySnoc(s, x, lo);
      SumExactlySnoc(s, x, lo + 1, hi);
      BranchAdd(x, Exactly(s, lo - 1), Exactly(s, lo), SumExactly(s, lo, hi - 1), SumExactly(s, lo + 1, hi));
    }
  }

  /** The probabilities of all possible counts add up to one. */
  lemma {:induction false} TotalProbability(s: seq<real>)
    ensures SumExactly(s, 0, |s|) == 1.0
  {
    if s != [] {
      var x, r := s[0], s[1..];
      assert s == [x] + r;
      TotalProbability(r);
      SumExactlyCons(x, r, 0, |r| + 1);
      ExactlyOutOfRange(r, -1);
      ExactlyOutOfRange(r, |r| + 1);
      SumExactlyTop(r, 0, |r|);
    }
  }

  /** At least one success is the complement of all failures. */
  lemma AtLeastOneIsComplement(s: seq<real>)
    ensures AtLeast(s, 1) == 1.0 - AllFail(s)
  {
    TotalProbability(s);
    ExactlyZeroIsAllFail(s);
  }

  /** Adding a last trial x: either it supplies the k-th success, or the first |s| already have k. */
  lemma AtLeastSnoc(s: seq<real>, x: real, k: int)
    ensures AtLeast(s + [x], k) == x * Exactly(s, k - 1) + AtLeast(s, k)
  {
    var n := |s|;
    assert |s + [x]| == n + 1;
    var e, a := Exactly(s, k - 1), SumExactly(s, k, n);
    assert AtLeast(s + [x], k) == SumExactly(s + [x], k, n + 1) && AtLeast(s, k) == a;
    if k <= n + 1 {
      SumExactlySnoc(s, x, k, n + 1);
      SumExactlyTop(s, k, n);
      ExactlyOutOfRange(s, n + 1);
      BranchCollect(x, SumExactly(s, k - 1, n), SumExactly(s, k, n + 1), e, a);
    } else {
      ExactlyOutOfRange(s, k - 1);
      ScaleZero(x, e);
    }
  }

  /** Collecting the terms of a Branch whose two arms share the summand a. */
  lemma BranchCollect(x: real, succeeded: real, failed: real, e: real, a: real)
    requires succeeded == e + a && failed == a
    ensures Branch(x, succeeded, failed) == x * e + a
  {
  }

  lemma ScaleZero(x: real, e: real)
    requires e == 0.0
    ensures x * e == 0.0
  {
  }

  /** The survival function obeys the same first-trial recurrence as Exactly. */
  lemma AtLeastCons(x: real, r: seq<real>, k: int)
    ensures AtLeast([x] + r, k) == Branch(x, AtLeast(r, k - 1), AtLeast(r, k))
  {
    SumExactlyCons(x, r, k, |r| + 1);
    if k <= |r| + 1 {
      SumExactlyTop(r, k, |r|);
      ExactlyOutOfRange(r, |r| + 1);
    }
  }

  /** At least as many successes as trials means every trial succeeds. */
  lemma {:induction false} AtLeastAllIsProduct(s: seq<real>)
    ensures AtLeast(s, |s|) == AllSucceed(s)
    decreases |s|
  {
    if s != [] {
      var r := s[1..];
      assert s == [s[0]] + r;
      AtLeastCons(s[0], r, |s|);
      AtLeastAllIsProduct(r);
    }
  }

  /** A trial that always succeeds just lowers the requirement by one. */
  lemma AtLeastCertainTrial(r: seq<real>, k: int)
    ensures AtLeast([1.0] + r, k) == AtLeast(r, k - 1)
  {
    AtLeastCons(1.0, r, k);
  }

  /** A trial that never succeeds does not change the result. */
  lemma AtLeastImpossibleTrial(r: seq<real>, k: int)
    ensures AtLeast([0.0] + r, k) == AtLeast(r, k)
  {
    AtLeastCons(0.0, r, k);
  }

  /** Each count has a non-negative probability when the trials are probabilities. */
  lemma {:induction false} ExactlyNonNegative(s: seq<real>, k: int)
    requires IsProbabilities(s)
    ensures Exactly(s, k) >= 0.0
  {
    if s != [] {
      assert IsProbabilities(s[1..]) by {
        forall i | 0 <= i < |s[1..]| ensures 0.0 <= s[1..][i] <= 1.0 {
          assert s[1..][i] == s[i + 1];
        }
      }
      ExactlyNonNegative(s[1..], k - 1);
      ExactlyNonNegative(s[1..], k);
      BranchNonNegative(s[0], Exactly(s[1..], k - 1), Exactly(s[1..], k));
    }
  }

  /** A sum of count probabilities is non-negative. */
  lemma {:induction false} SumNonNegative(s: seq<real>, lo: int, hi: int)
    requires IsProbabilities(s)
    ensures SumExactly(s, lo, hi) >= 0.0
    decreases hi - lo
  {
    if lo <= hi {
      ExactlyNonNegative(s, lo);
      SumNonNegative(s, lo + 1, hi);
    }
  }

  /** Asking for one more success never makes the event more likely. */
  lemma AtLeastMonotone(s: seq<real>, k: int)
    requires IsProbabilities(s)
    ensures AtLeast(s, k + 1) <= AtLeast(s, k)
  {
    ExactlyNonNegative(s, k);
  }

  /** With a non-positive requirement the event is certain. */
  lemma {:induction false} AtLeastNonPositive(s: seq<real>, k: int)
    requires k <= 0
    ensures AtLeast(s, k) == 1.0
    decreases -k
  {
    if k == 0 {
      TotalProbability(s);
    } else {
      ExactlyOutOfRange(s, k);
      AtLeastNonPositive(s, k + 1);
    }
  }

  /** The survival function is a probability. */
  lemma {:induction false} AtLeastBounds(s: seq<real>, k: int)
    requires IsProbabilities(s)
    ensures 0.0 <= AtLeast(s, k) <= 1.0
    decreases if k > 0 then k else 0
  {
    if k <= 0 {
      AtLeastNonPositive(s, k);
    } else {
      AtLeastBounds(s, k - 1);
      AtLeastMonotone(s, k - 1);
      SumNonNegative(s, k, |s|);
    }
  }

  lemma AtLeastBoundsWhenProbabilities(s: seq<real>, k: int)
    ensures IsProbabilities(s) ==> 0.0 <= AtLeast(s, k) <= 1.0
  {
    if IsProbabilities(s) {
      AtLeastBounds(s, k);
    }
  }

  /** Moving one trial to the front does not change any count's probability. */
  lemma {:induction false} ExactlyMoveToFront(a: seq<real>, x: real, b: seq<real>, k: int)
    ensures Exactly(a + [x] + b, k) == Exactly([x] + a + b, k)
    decreases |a|
  {
    if a != [] {
      var y, t := a[0], a[1..] + b;
      assert a + [x] + b == [y] + (a[1..] + [x] + b);
      assert [x] + a + b == [x] + ([y] + t);
      ExactlyMoveToFront(a[1..], x, b, k - 1);
      ExactlyMoveToFront(a[1..], x, b, k);
      assert [x] + a[1..] + b == [x] + t;
      ExactlyCons(y, a[1..] + [x] + b, k);
      ExactlyCons(x, t, k - 1);
      ExactlyCons(x, t, k);
      ExactlyCons(x, [y] + t, k);
      ExactlyCons(y, t, k - 1);
      ExactlyCons(y, t, k);
      BranchSwap(y, x, Exactly(t, k - 2), Exactly(t, k - 1), Exactly(t, k));
    }
  }

  lemma Cancel<T>(m: multiset<T>, n: multiset<T>, x: T)
    requires m + multiset{x} == n + multiset{x}
    ensures m == n
  {
    assert m == m + multiset{x} - multiset{x};
    assert n == n + multiset{x} - multiset{x};
  }

  /** The first element of s sits somewhere in its permutation t; removing it leaves permutations. */
  lemma SplitPermutation<T>(s: seq<T>, t: seq<T>) returns (a: seq<T>, b: seq<T>)
    requires s != [] && multiset(s) == multiset(t)
    ensures t == a + [s[0]] + b
    ensures multiset(s[1..]) == multiset(a + b)
  {
    var x := s[0];
    assert x in multiset(s);
    var j :| 0 <= j < |t| && t[j] == x;
    a, b := t[..j], t[j + 1..];
    RemoveAt(t, j);
    RemoveAt(s, 0);
    assert s[..0] + s[1..] == s[1..];
    Cancel(multiset(s[1..]), multiset(a + b), x);
  }

  /** Taking out the element at j splits a sequence, and its multiset, around that element. */
  lemma RemoveAt<T>(t: seq<T>, j: int)
    requires 0 <= j < |t|
    ensures t == t[..j] + [t[j]] + t[j + 1..]
    ensures multiset(t) == multiset(t[..j] + t[j + 1..]) + multiset{t[j]}
  {
    assert t == t[..j] + [t[j]] + t[j + 1..];
    assert multiset(t) == multiset(t[..j]) + multiset{t[j]} + multiset(t[j + 1..]);
  }

  /** The distribution of the count is symmetric in the trials. */
  lemma {:induction false} ExactlyPermutation(s: seq<real>, t: seq<real>, k: int)
    requires multiset(s) == multiset(t)
    ensures Exactly(s, k) == Exactly(t, k)
    decreases |s|
  {
    if s == [] {
      assert |t| == |multiset(t)| == 0;
    } else {
      var x := s[0];
      var a, b := SplitPermutation(s, t);
      ExactlyPermutation(s[1..], a + b, k - 1);
      ExactlyPermutation(s[1..], a + b, k);
      ExactlyMoveToFront(a, x, b, k);
      assert [x] + a + b == [x] + (a + b);
      ExactlyCons(x, a + b, k);
    }
  }

  lemma {:induction false} SumExactlyPermutation(s: seq<real>, t: seq<real>, lo: int, hi: int)
    requires multiset(s) == multiset(t)
    ensures SumExactly(s, lo, hi) == SumExactly(t, lo, hi)
    decreases hi - lo
  {
    if lo <= hi {
      ExactlyPermutation(s, t, lo);
      SumExactlyPermutation(s, t, lo + 1, hi);
    }
  }

  /** The survival function is symmetric in the trials. */
  lemma AtLeastPermutation(s: seq<real>, t: seq<real>, k: int)
    requires multiset(s) == multiset(t)
    ensures AtLeast(s, k) == AtLeast(t, k)
  {
    assert |s| == |multiset(s)| == |multiset(t)| == |t|;
    SumExactlyPermutation(s, t, k, |s|);
  }
}
