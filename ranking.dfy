/**
 * The ordering step of the evaluator: a stable ascending sort of
 * (name, probability) pairs keyed on the probability, followed by a
 * reversal, which together give a descending ranking in which pairs with
 * equal probability appear in the reverse of their input order.
 */
module Ranking {
  /** A name with its probability of at least n successes. */
  type Pair = (string, real)

  /** Keys never decrease from left to right. */
  ghost predicate Ascending(s: seq<Pair>) {
    forall i, j :: 0 <= i < j < |s| ==> s[i].1 <= s[j].1
  }

  /** Keys never increase from left to right. */
  ghost predicate Descending(s: seq<Pair>) {
    forall i, j :: 0 <= i < j < |s| ==> s[i].1 >= s[j].1
  }

  /** The pairs of s whose key is v, in the order they appear in s. */
  function Filter(s: seq<Pair>, v: real): (r: seq<Pair>)
    ensures |r| <= |s|
  {
    if s == [] then []
    else Filter(s[..|s| - 1], v) + (if s[|s| - 1].1 == v then [s[|s| - 1]] else [])
  }

  /** The elements of s in the opposite order. */
  function Reverse(s: seq<Pair>): (r: seq<Pair>)
    ensures |r| == |s|
    ensures forall i :: 0 <= i < |s| ==> r[i] == s[|s| - 1 - i]
  {
    if s == [] then [] else [s[|s| - 1]] + Reverse(s[..|s| - 1])
  }

  /**
   * Inserts x into t after every element whose key is at most x's key,
   * scanning from the right: a later element never overtakes an earlier
   * one with the same key.
   */
  function Insert(t: seq<Pair>, x: Pair): (r: seq<Pair>)
    ensures |r| == |t| + 1
  {
    if t == [] || t[|t| - 1].1 <= x.1 then t + [x]
    else Insert(t[..|t| - 1], x) + [t[|t| - 1]]
  }

  /** A stable ascending sort on the probability, by insertion. */
  function SortAscending(s: seq<Pair>): (r: seq<Pair>)
    ensures |r| == |s|
  {
    if s == [] then [] else Insert(SortAscending(s[..|s| - 1]), s[|s| - 1])
  }

  /** The stable ascending sort, reversed. */
  function RankDescending(s: seq<Pair>): (r: seq<Pair>)
    ensures |r| == |s|
  {
    Reverse(SortAscending(s))
  }

  lemma {:induction false} FilterAppend(a: seq<Pair>, b: seq<Pair>, v: real)
    ensures Filter(a + b, v) == Filter(a, v) + Filter(b, v)
    decreases |b|
  {
    if b == [] {
      assert a + b == a;
    } else {
      var b' := b[..|b| - 1];
      assert (a + b)[..|a + b| - 1] == a + b';
      FilterAppend(a, b', v);
    }
  }

  lemma FilterSingleton(x: Pair, v: real)
    ensures Filter([x], v) == if x.1 == v then [x] else []
  {
    assert [x][..0] == [];
  }

  lemma {:induction false} InsertMultiset(t: seq<Pair>, x: Pair)
    ensures multiset(Insert(t, x)) == multiset(t) + multiset{x}
    decreases |t|
  {
    if t == [] || t[|t| - 1].1 <= x.1 {
    } else {
      var init, last := t[..|t| - 1], t[|t| - 1];
      assert t == init + [last];
      InsertMultiset(init, x);
    }
  }

  lemma {:induction false} InsertAscending(t: seq<Pair>, x: Pair)
    requires Ascending(t)
    ensures Ascending(Insert(t, x))
    ensures forall i :: 0 <= i < |Insert(t, x)| ==> Insert(t, x)[i] == x || Insert(t, x)[i] in t
    decreases |t|
  {
    if t == [] || t[|t| - 1].1 <= x.1 {
    } else {
      var init, last := t[..|t| - 1], t[|t| - 1];
      InsertAscending(init, x);
      var r := Insert(init, x);
      forall i | 0 <= i < |r|
        ensures r[i].1 <= last.1
      {
        if r[i] != x {
          var k :| 0 <= k < |init| && init[k] == r[i];
        }
      }
    }
  }

  lemma {:induction false} InsertFilter(t: seq<Pair>, x: Pair, v: real)
    ensures Filter(Insert(t, x), v) == Filter(t, v) + Filter([x], v)
    decreases |t|
  {
    if t == [] || t[|t| - 1].1 <= x.1 {
      FilterAppend(t, [x], v);
    } else {
      var init, last := t[..|t| - 1], t[|t| - 1];
      assert t == init + [last];
      InsertFilter(init, x, v);
      InsertFilterStep(init, Insert(init, x), last, x, v);
    }
  }

  /** A pair passed over by Insert has a larger key, so it never meets x in one key's subsequence. */
  lemma InsertFilterStep(init: seq<Pair>, inserted: seq<Pair>, last: Pair, x: Pair, v: real)
    requires x.1 < last.1
    requires Filter(inserted, v) == Filter(init, v) + Filter([x], v)
    ensures Filter(inserted + [last], v) == Filter(init + [last], v) + Filter([x], v)
  {
    FilterAppend(inserted, [last], v);
    FilterAppend(init, [last], v);
    FilterSingleton(x, v);
    FilterSingleton(last, v);
    JoinIgnoringEmpty(Filter(init, v), Filter([x], v), Filter([last], v));
  }

  lemma JoinIgnoringEmpty(a: seq<Pair>, b: seq<Pair>, c: seq<Pair>)
    requires b == [] || c == []
    ensures a + b + c == a + c + b
  {
    if b == [] {
      assert a + b == a && a + c + b == a + c;
    } else {
      assert a + c == a && a + b + c == a + b;
    }
  }

  /** The sort neither loses nor invents pairs. */
  lemma {:induction false} SortPermutation(s: seq<Pair>)
    ensures multiset(SortAscending(s)) == multiset(s)
    decreases |s|
  {
    if s != [] {
      var init, last := s[..|s| - 1], s[|s| - 1];
      assert s == init + [last];
      SortPermutation(init);
      InsertMultiset(SortAscending(init), last);
    }
  }

  /** The sort's output is ascending in the probability. */
  lemma {:induction false} SortAscendingIsAscending(s: seq<Pair>)
    ensures Ascending(SortAscending(s))
    decreases |s|
  {
    if s != [] {
      SortAscendingIsAscending(s[..|s| - 1]);
      InsertAscending(SortAscending(s[..|s| - 1]), s[|s| - 1]);
    }
  }

  /** Stability: pairs with the same probability keep their input order. */
  lemma {:induction false} SortStable(s: seq<Pair>, v: real)
    ensures Filter(SortAscending(s), v) == Filter(s, v)
    decreases |s|
  {
    if s != [] {
      var init, last := s[..|s| - 1], s[|s| - 1];
      SortStable(init, v);
      InsertFilter(SortAscending(init), last, v);
      FilterSingleton(last, v);
    }
  }

  /** The last pair of s is the last pair of its key's subsequence. */
  lemma FilterLastNonEmpty(s: seq<Pair>)
    requires s != []
    ensures Filter(s, s[|s| - 1].1) != []
    ensures Filter(s, s[|s| - 1].1)[|Filter(s, s[|s| - 1].1)| - 1] == s[|s| - 1]
  {
  }

  lemma OnlyEmptyHasNoKeys(s: seq<Pair>)
    requires forall v :: Filter(s, v) == []
    ensures s == []
  {
    if s != [] {
      FilterLastNonEmpty(s);
    }
  }

  /** Dropping the last pair drops the last pair of its key's subsequence. */
  lemma FilterDropLast(s: seq<Pair>, v: real)
    requires s != []
    ensures s[|s| - 1].1 == v ==> Filter(s, v) != [] && Filter(s[..|s| - 1], v) == Filter(s, v)[..|Filter(s, v)| - 1] && Filter(s, v)[|Filter(s, v)| - 1] == s[|s| - 1]
    ensures s[|s| - 1].1 != v ==> Filter(s[..|s| - 1], v) == Filter(s, v)
  {
    var f := Filter(s[..|s| - 1], v);
    if s[|s| - 1].1 == v {
      assert Filter(s, v) == f + [s[|s| - 1]];
    } else {
      assert Filter(s, v) == f + [];
    }
  }

  /** A key that occurs in an ascending sequence is at most its last key. */
  lemma {:induction false} KeyAtMostLast(s: seq<Pair>, v: real)
    requires Ascending(s) && Filter(s, v) != []
    ensures v <= s[|s| - 1].1
    decreases |s|
  {
    var init := s[..|s| - 1];
    if s[|s| - 1].1 != v {
      FilterDropLast(s, v);
      assert Ascending(init) && init != [];
      KeyAtMostLast(init, v);
      assert init[|init| - 1] == s[|s| - 2];
    }
  }

  /** Ascending sequences that agree on the subsequences of their last keys end alike. */
  lemma SameLast(t: seq<Pair>, u: seq<Pair>)
    requires Ascending(t) && Ascending(u) && t != [] && u != []
    requires Filter(t, t[|t| - 1].1) == Filter(u, t[|t| - 1].1)
    requires Filter(t, u[|u| - 1].1) == Filter(u, u[|u| - 1].1)
    ensures t[|t| - 1] == u[|u| - 1]
  {
    var lt, lu := t[|t| - 1], u[|u| - 1];
    FilterLastNonEmpty(t);
    FilterLastNonEmpty(u);
    KeyAtMostLast(u, lt.1);
    KeyAtMostLast(t, lu.1);
  }

  /**
   * Two ascending sequences that agree on the subsequence of every key are
   * equal: a stable ascending sort has exactly one possible result.
   */
  lemma {:induction false} AscendingUnique(t: seq<Pair>, u: seq<Pair>)
    requires Ascending(t) && Ascending(u)
    requires forall v :: Filter(t, v) == Filter(u, v)
    ensures t == u
    decreases |t|
  {
    if t == [] {
      AgreesWithEmpty(t, u);
    } else if u == [] {
      AgreesWithEmpty(u, t);
    } else {
      SameLast(t, u);
      var it, iu := t[..|t| - 1], u[..|u| - 1];
      SameKeysBeforeLast(t, u, it, iu);
      AscendingPrefix(t);
      AscendingPrefix(u);
      AscendingUnique(it, iu);
      assert t == it + [t[|t| - 1]] && u == iu + [u[|u| - 1]];
    }
  }

  /** Only the empty sequence agrees with the empty sequence on every key. */
  lemma AgreesWithEmpty(t: seq<Pair>, u: seq<Pair>)
    requires t == [] && forall v :: Filter(t, v) == Filter(u, v)
    ensures u == []
  {
    forall v
      ensures Filter(u, v) == []
    {
      assert Filter(t, v) == [];
    }
    OnlyEmptyHasNoKeys(u);
  }

  /**
   * Sequences that agree on every key and end in the same pair still agree
   * on every key once that pair is dropped from both.
   */
  lemma SameKeysBeforeLast(t: seq<Pair>, u: seq<Pair>, it: seq<Pair>, iu: seq<Pair>)
    requires t != [] && u != [] && t[|t| - 1] == u[|u| - 1]
    requires it == t[..|t| - 1] && iu == u[..|u| - 1]
    requires forall v :: Filter(t, v) == Filter(u, v)
    ensures forall v :: Filter(it, v) == Filter(iu, v)
  {
    forall v
      ensures Filter(it, v) == Filter(iu, v)
    {
      FilterDropLast(t, v);
      FilterDropLast(u, v);
    }
  }

  /** Dropping the last pair keeps a sequence ascending. */
  lemma AscendingPrefix(s: seq<Pair>)
    requires Ascending(s) && s != []
    ensures Ascending(s[..|s| - 1])
  {
  }

  /**
   * The sort is characterised by its properties: an ascending sequence
   * with the input's subsequence for every key is the sort's result.
   */
  lemma SortAscendingUnique(s: seq<Pair>, t: seq<Pair>)
    requires Ascending(t)
    requires forall v :: Filter(t, v) == Filter(s, v)
    ensures t == SortAscending(s)
  {
    SortAscendingIsAscending(s);
    forall v
      ensures Filter(t, v) == Filter(SortAscending(s), v)
    {
      SortStable(s, v);
    }
    AscendingUnique(t, SortAscending(s));
  }

  lemma {:induction false} ReverseMultiset(s: seq<Pair>)
    ensures multiset(Reverse(s)) == multiset(s)
    decreases |s|
  {
    if s != [] {
      var init, last := s[..|s| - 1], s[|s| - 1];
      assert s == init + [last];
      ReverseMultiset(init);
    }
  }

  lemma {:induction false} ReverseFilter(s: seq<Pair>, v: real)
    ensures Filter(Reverse(s), v) == Reverse(Filter(s, v))
    decreases |s|
  {
    if s != [] {
      var init, last := s[..|s| - 1], s[|s| - 1];
      ReverseFilter(init, v);
      FilterAppend([last], Reverse(init), v);
      FilterSingleton(last, v);
      var f := Filter(init, v);
      if last.1 == v {
        assert Filter(s, v) == f + [last];
        assert Reverse(f + [last]) == [last] + Reverse(f);
      } else {
        assert Filter(s, v) == f + [];
        assert f + [] == f;
      }
    }
  }

  /**
   * The ranking is non-increasing by probability, is a permutation of its
   * input, and lists pairs of equal probability in reverse input order.
   */
  lemma RankDescendingCorrect(s: seq<Pair>)
    ensures Descending(RankDescending(s))
    ensures multiset(RankDescending(s)) == multiset(s)
    ensures forall v :: Filter(RankDescending(s), v) == Reverse(Filter(s, v))
  {
    SortAscendingIsAscending(s);
    SortPermutation(s);
    ReverseMultiset(SortAscending(s));
    forall v
      ensures Filter(RankDescending(s), v) == Reverse(Filter(s, v))
    {
      ReverseFilter(SortAscending(s), v);
      SortStable(s, v);
    }
  }
}
