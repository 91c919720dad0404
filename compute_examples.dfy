/**
 * The configurations and datasets of the repository's unit tests for the
 * evaluator, with their expected results (exact, since the model uses reals).
 */
module ComputeExamples {
  import opened Results
  import opened PoissonBinomial
  import opened Ranking
  import opened Compute

  /** The attribute enumeration of the tests, with three members. */
  datatype MyAttribute = A0 | A1 | A2

  const Keys: seq<MyAttribute> := [A0, A1, A2]

  /** `_make_attributes`: the given probabilities for the first keys, in order. */
  function MakeAttributes(probabilities: seq<real>): (r: map<MyAttribute, real>)
    requires |probabilities| <= 3
    ensures forall i :: 0 <= i < |probabilities| ==> Keys[i] in r && r[Keys[i]] == probabilities[i]
    ensures forall i :: |probabilities| <= i < 3 ==> Keys[i] !in r
  {
    if |probabilities| == 0 then map[]
    else if |probabilities| == 1 then map[A0 := probabilities[0]]
    else if |probabilities| == 2 then map[A0 := probabilities[0], A1 := probabilities[1]]
    else map[A0 := probabilities[0], A1 := probabilities[1], A2 := probabilities[2]]
  }

  /**
   * The dataset of the property tests. Its first entry repeats the key A1
   * (0.75, then 0.5); in a Python dict literal the later value wins.
   */
  const MyAttributesByName: seq<(string, map<MyAttribute, real>)> :=
    [("name_0", map[A0 := 0.5, A1 := 0.5]), ("name_1", map[A0 := 0.99, A1 := 0.0, A2 := 0.5])]

  /** Every setting passed to the constructor is stored, including an explicit n. */
  method SetAll() returns (e: Evaluator<MyAttribute>)
    ensures e.attributesByName == MyAttributesByName && e.attributeType == Keys
    ensures e.threshold == 0.6 && e.n == 10 && e.roundTo == 5
    ensures e.defaultAttributes == map[] && e.defaultProbability == 0.1
  {
    e := new Evaluator(MyAttributesByName, Keys, threshold := 0.6, n := Some(10), roundTo := 5,
                       defaultAttributes := Some(map[]), defaultProbability := 0.1);
  }

  /** Without n, three keys at threshold 0.6 give n = ceil(1.8) = 2. */
  method SetThreshold() returns (e: Evaluator<MyAttribute>)
    ensures e.attributesByName == MyAttributesByName && e.attributeType == Keys
    ensures e.threshold == 0.6 && e.n == 2
  {
    e := new Evaluator(MyAttributesByName, Keys, threshold := 0.6);
  }

  /** Without default_attributes, the defaults are the empty map, 0.8, 3 and 0.5. */
  method NoDefaultAttributes() returns (e: Evaluator<MyAttribute>)
    ensures e.attributesByName == MyAttributesByName && e.attributeType == Keys
    ensures e.defaultAttributes == map[]
    ensures e.threshold == 0.8 && e.roundTo == 3 && e.defaultProbability == 0.5
    ensures e.n == 3
  {
    e := new Evaluator(MyAttributesByName, Keys);
  }

  /** n = 0 counts as absent: the threshold decides. */
  method ZeroNMeansDerived() returns (e: Evaluator<MyAttribute>)
    ensures e.n == 3
  {
    e := new Evaluator([], Keys, n := Some(0));
  }

  lemma AllThree(ps: seq<real>, x: real, y: real, z: real)
    requires ps == [x, y, z]
    ensures AtLeast(ps, 3) == x * y * z
  {
    AtLeastAllIsProduct(ps);
    var t1, t2 := [y, z], [z];
    assert ps[1..] == t1 && t1[1..] == t2 && t2[1..] == [];
    assert AllSucceed(t2) == z * 1.0;
    assert AllSucceed(t1) == y * z;
    assert AllSucceed(ps) == x * (y * z);
  }

  lemma AnyOfThree(ps: seq<real>, x: real, y: real, z: real)
    requires ps == [x, y, z]
    ensures AtLeast(ps, 1) == 1.0 - (1.0 - x) * (1.0 - y) * (1.0 - z)
  {
    AtLeastOneIsComplement(ps);
    var t1, t2 := [y, z], [z];
    assert ps[1..] == t1 && t1[1..] == t2 && t2[1..] == [];
    assert AllFail(t2) == (1.0 - z) * 1.0;
    assert AllFail(t1) == (1.0 - y) * (1.0 - z);
    assert AllFail(ps) == (1.0 - x) * ((1.0 - y) * (1.0 - z));
  }

  /** With the tests' three keys, an entity encodes to its three looked-up values. */
  lemma EncodedWithThreeKeys(e: Evaluator<MyAttribute>, attributes: map<MyAttribute, real>)
    requires e.attributeType == Keys
    ensures e.Encoded(attributes) == [
      Lookup(attributes, e.defaultAttributes, e.defaultProbability, A0),
      Lookup(attributes, e.defaultAttributes, e.defaultProbability, A1),
      Lookup(attributes, e.defaultAttributes, e.defaultProbability, A2)]
  {
  }

  lemma ScoresOfThree(e: Evaluator<MyAttribute>, n0: string, n1: string, n2: string, a: real, b: real, c: real)
    requires |e.attributesByName| == 3
    requires e.attributesByName[0].0 == n0 && e.attributesByName[1].0 == n1 && e.attributesByName[2].0 == n2
    requires AtLeast(e.Encoded(e.attributesByName[0].1), e.n) == a
    requires AtLeast(e.Encoded(e.attributesByName[1].1), e.n) == b
    requires AtLeast(e.Encoded(e.attributesByName[2].1), e.n) == c
    ensures e.Scores() == [(n0, a), (n1, b), (n2, c)]
  {
  }

  /** The 'no_missing' case: every attribute given, n = 3. */
  lemma NoMissingScores(e: Evaluator<MyAttribute>)
    requires e.attributeType == Keys && e.n == 3
    requires e.attributesByName == [("name_0", map[A0 := 0.5, A1 := 0.5, A2 := 0.5]),
                                    ("name_1", map[A0 := 0.2, A1 := 0.7, A2 := 0.9]),
                                    ("name_2", map[A0 := 0.5, A1 := 0.1, A2 := 0.5])]
    ensures e.Scores() == [("name_0", 0.125), ("name_1", 0.126), ("name_2", 0.025)]
  {
    EncodedWithThreeKeys(e, e.attributesByName[0].1);
    EncodedWithThreeKeys(e, e.attributesByName[1].1);
    EncodedWithThreeKeys(e, e.attributesByName[2].1);
    AllThree(e.Encoded(e.attributesByName[0].1), 0.5, 0.5, 0.5);
    AllThree(e.Encoded(e.attributesByName[1].1), 0.2, 0.7, 0.9);
    AllThree(e.Encoded(e.attributesByName[2].1), 0.5, 0.1, 0.5);
    ScoresOfThree(e, "name_0", "name_1", "name_2", 0.125, 0.126, 0.025);
  }

  lemma SortTwo(p0: Pair, p1: Pair)
    ensures SortAscending([p0]) == [p0]
    ensures SortAscending([p0, p1]) == Insert([p0], p1)
  {
    assert [p0][..0] == [] && [p0, p1][..1] == [p0];
  }

  lemma SortThree(p0: Pair, p1: Pair, p2: Pair)
    ensures SortAscending([p0, p1, p2]) == Insert(Insert([p0], p1), p2)
  {
    SortTwo(p0, p1);
    assert [p0, p1, p2][..2] == [p0, p1];
  }

  /** The middle pair is the largest and the last the smallest. */
  lemma RankMiddleFirst(p0: Pair, p1: Pair, p2: Pair)
    requires p2.1 < p0.1 < p1.1
    ensures RankDescending([p0, p1, p2]) == [p1, p0, p2]
  {
    SortThree(p0, p1, p2);
    assert [p0, p1][..1] == [p0] && [p0][..0] == [];
    assert Insert([], p2) == [p2];
    assert Insert([p0], p2) == [p2, p0];
    assert Insert([p0, p1], p2) == [p2, p0, p1];
  }

  /** The pairs are listed from smallest to largest. */
  lemma RankIncreasing(p0: Pair, p1: Pair, p2: Pair)
    requires p0.1 < p1.1 < p2.1
    ensures RankDescending([p0, p1, p2]) == [p2, p1, p0]
  {
    SortThree(p0, p1, p2);
  }

  /** The pairs are listed from largest to smallest. */
  lemma RankDecreasing(p0: Pair, p1: Pair, p2: Pair)
    requires p2.1 < p1.1 < p0.1
    ensures RankDescending([p0, p1, p2]) == [p0, p1, p2]
  {
    SortThree(p0, p1, p2);
    assert [p1, p0][..1] == [p1] && [p1][..0] == [];
    assert Insert([], p2) == [p2];
    assert Insert([p1], p2) == [p2, p1];
    assert Insert([], p1) == [p1];
    assert Insert([p0], p1) == [p1, p0];
    assert Insert([p1, p0], p2) == [p2, p1, p0];
  }

  /** The 'no_missing' case: every attribute given, n = 3. */
  method NoMissing() returns (r: Result<seq<Pair>>)
    ensures r == Success([("name_1", 0.126), ("name_0", 0.125), ("name_2", 0.025)])
  {
    var data := [("name_0", MakeAttributes([0.5, 0.5, 0.5])),
                 ("name_1", MakeAttributes([0.2, 0.7, 0.9])),
                 ("name_2", MakeAttributes([0.5, 0.1, 0.5]))];
    var e := new Evaluator(data, Keys, n := Some(3));
    NoMissingScores(e);
    RankMiddleFirst(("name_0", 0.125), ("name_1", 0.126), ("name_2", 0.025));
    r := e.Evaluate();
  }

  /** The 'default_probability' case: missing attributes fall back to 1.0, n = 3. */
  lemma DefaultProbabilityScores(e: Evaluator<MyAttribute>)
    requires e.attributeType == Keys && e.n == 3
    requires e.defaultAttributes == map[] && e.defaultProbability == 1.0
    requires e.attributesByName == [("name_0", map[A0 := 0.5, A1 := 0.5, A2 := 0.5]),
                                    ("name_1", map[A0 := 0.2]),
                                    ("name_2", map[])]
    ensures e.Scores() == [("name_0", 0.125), ("name_1", 0.2), ("name_2", 1.0)]
  {
    EncodedWithThreeKeys(e, e.attributesByName[0].1);
    EncodedWithThreeKeys(e, e.attributesByName[1].1);
    EncodedWithThreeKeys(e, e.attributesByName[2].1);
    AllThree(e.Encoded(e.attributesByName[0].1), 0.5, 0.5, 0.5);
    AllThree(e.Encoded(e.attributesByName[1].1), 0.2, 1.0, 1.0);
    AllThree(e.Encoded(e.attributesByName[2].1), 1.0, 1.0, 1.0);
    ScoresOfThree(e, "name_0", "name_1", "name_2", 0.125, 0.2, 1.0);
  }

  method DefaultProbabilityCase() returns (r: Result<seq<Pair>>)
    ensures r == Success([("name_2", 1.0), ("name_1", 0.2), ("name_0", 0.125)])
  {
    var data := [("name_0", MakeAttributes([0.5, 0.5, 0.5])),
                 ("name_1", MakeAttributes([0.2])),
                 ("name_2", MakeAttributes([]))];
    var e := new Evaluator(data, Keys, n := Some(3), defaultProbability := 1.0);
    DefaultProbabilityScores(e);
    RankIncreasing(("name_0", 0.125), ("name_1", 0.2), ("name_2", 1.0));
    r := e.Evaluate();
  }

  /**
   * The 'default_attributes' case: default attributes of 0.0 take precedence
   * over the default probability of 1.0, n = 1.
   */
  lemma DefaultAttributesScores(e: Evaluator<MyAttribute>)
    requires e.attributeType == Keys && e.n == 1
    requires e.defaultAttributes == map[A0 := 0.0, A1 := 0.0, A2 := 0.0] && e.defaultProbability == 1.0
    requires e.attributesByName == [("name_0", map[A0 := 0.5, A1 := 0.5, A2 := 0.5]),
                                    ("name_1", map[A0 := 0.25]),
                                    ("name_2", map[])]
    ensures e.Scores() == [("name_0", 0.875), ("name_1", 0.25), ("name_2", 0.0)]
  {
    EncodedWithThreeKeys(e, e.attributesByName[0].1);
    EncodedWithThreeKeys(e, e.attributesByName[1].1);
    EncodedWithThreeKeys(e, e.attributesByName[2].1);
    AnyOfThree(e.Encoded(e.attributesByName[0].1), 0.5, 0.5, 0.5);
    AnyOfThree(e.Encoded(e.attributesByName[1].1), 0.25, 0.0, 0.0);
    AnyOfThree(e.Encoded(e.attributesByName[2].1), 0.0, 0.0, 0.0);
    ScoresOfThree(e, "name_0", "name_1", "name_2", 0.875, 0.25, 0.0);
  }

  method DefaultAttributesCase() returns (r: Result<seq<Pair>>)
    ensures r == Success([("name_0", 0.875), ("name_1", 0.25), ("name_2", 0.0)])
  {
    var data := [("name_0", MakeAttributes([0.5, 0.5, 0.5])),
                 ("name_1", MakeAttributes([0.25])),
                 ("name_2", MakeAttributes([]))];
    var e := new Evaluator(data, Keys, n := Some(1), defaultProbability := 1.0,
                           defaultAttributes := Some(MakeAttributes([0.0, 0.0, 0.0])));
    DefaultAttributesScores(e);
    RankDecreasing(("name_0", 0.875), ("name_1", 0.25), ("name_2", 0.0));
    r := e.Evaluate();
  }

  /** The printing case: names right-aligned to the longest, six characters. */
  lemma PrintScores(e: Evaluator<MyAttribute>)
    requires e.attributeType == Keys && e.n == 1
    requires e.defaultAttributes == map[] && e.defaultProbability == 0.5
    requires e.attributesByName == [("n_0", map[A0 := 0.5, A1 := 0.5, A2 := 0.5]),
                                    ("name_1", map[A0 := 0.2, A1 := 0.7, A2 := 0.9]),
                                    ("name2", map[A0 := 0.5, A1 := 0.1, A2 := 0.5])]
    ensures e.Scores() == [("n_0", 0.875), ("name_1", 0.976), ("name2", 0.775)]
    ensures MaxLength(e.Names()) == 6
  {
    EncodedWithThreeKeys(e, e.attributesByName[0].1);
    EncodedWithThreeKeys(e, e.attributesByName[1].1);
    EncodedWithThreeKeys(e, e.attributesByName[2].1);
    AnyOfThree(e.Encoded(e.attributesByName[0].1), 0.5, 0.5, 0.5);
    AnyOfThree(e.Encoded(e.attributesByName[1].1), 0.2, 0.7, 0.9);
    AnyOfThree(e.Encoded(e.attributesByName[2].1), 0.5, 0.1, 0.5);
    ScoresOfThree(e, "n_0", "name_1", "name2", 0.875, 0.976, 0.775);
    assert e.Names() == ["n_0", "name_1", "name2"];
  }

  lemma PaddedNames()
    ensures PadLeft("name_1", 6) == "name_1"
    ensures PadLeft("n_0", 6) == "   n_0"
    ensures PadLeft("name2", 6) == " name2"
  {
    var a, b := PadLeft("n_0", 6), PadLeft("name2", 6);
    assert a == a[..3] + a[3..] && a[..3] == "   ";
    assert b == b[..1] + b[1..] && b[..1] == " ";
  }

  lemma PrintedLines(lines: seq<Line>, ranked: seq<Pair>)
    requires ranked == [("name_1", 0.976), ("n_0", 0.875), ("name2", 0.775)]
    requires |lines| == 3
    requires forall i :: 0 <= i < 3 ==> lines[i] == Line(PadLeft(ranked[i].0, 6), ranked[i].1)
    ensures lines == [Line("name_1", 0.976), Line("   n_0", 0.875), Line(" name2", 0.775)]
  {
    PaddedNames();
    assert lines[0] == Line(PadLeft(ranked[0].0, 6), ranked[0].1);
    assert lines[1] == Line(PadLeft(ranked[1].0, 6), ranked[1].1);
    assert lines[2] == Line(PadLeft(ranked[2].0, 6), ranked[2].1);
  }

  method PrintCase() returns (r: Result<seq<Line>>)
    ensures r == Success([Line("name_1", 0.976), Line("   n_0", 0.875), Line(" name2", 0.775)])
  {
    var data := [("n_0", MakeAttributes([0.5, 0.5, 0.5])),
                 ("name_1", MakeAttributes([0.2, 0.7, 0.9])),
                 ("name2", MakeAttributes([0.5, 0.1, 0.5]))];
    var e := new Evaluator(data, Keys, n := Some(1), roundTo := 5);
    PrintScores(e);
    RankMiddleFirst(("n_0", 0.875), ("name_1", 0.976), ("name2", 0.775));
    r := e.ComputePrints();
    PrintedLines(r.value, RankDescending(e.Scores()));
  }
}
