/**
 * The ranking evaluator of compute.py. A dataset maps each name to a
 * partial map from attribute keys to probabilities. Each entity is encoded
 * as a full probability vector, one entry per attribute key (in the
 * enumeration's order), using a two-level default. The engine then gives
 * the probability that at least n of the entity's attributes hold, and the
 * (name, probability) pairs are ranked from most to least probable.
 *
 * The enumeration of attribute keys is a sequence of keys and the dataset
 * is a sequence of (name, attributes) pairs in insertion order.
 */
module Compute {
  import opened Results
  import opened PoissonBinomial
  import opened Ranking
  import Engine = AtLeastN

  const DefaultThreshold: real := 0.8
  const DefaultRoundTo: int := 3
  const DefaultProbability: real := 0.5

  /** The message of the ValueError Python's max() raises on an empty argument. */
  const EmptyMaxMessage := "max() arg is an empty sequence"

  /** The least integer that is not below x (math.ceil). */
  function Ceil(x: real): (r: int)
    ensures r as real - 1.0 < x <= r as real
  {
    var f := x.Floor;
    if f as real == x then f else f + 1
  }

  /**
   * `n or math.ceil(threshold * len(AttributeType))`: an explicit n wins
   * unless it is absent or 0, which Python treats as false.
   */
  function DeriveN(n: Option<int>, threshold: real, keyCount: nat): (r: int)
    ensures n.Some? && n.value != 0 ==> r == n.value
    ensures n.None? || n.value == 0 ==> r as real - 1.0 < threshold * keyCount as real <= r as real
  {
    if n.Some? && n.value != 0 then n.value else Ceil(threshold * keyCount as real)
  }

  /** A derived n can be used by the engine exactly when the threshold share is positive. */
  lemma DerivedNPositive(n: Option<int>, threshold: real, keyCount: nat)
    requires n.None? || n.value == 0
    ensures DeriveN(n, threshold, keyCount) >= 1 <==> threshold * keyCount as real > 0.0
  {
    var r := DeriveN(n, threshold, keyCount);
    if threshold * keyCount as real > 0.0 {
      assert r as real > 0.0;
    }
  }

  /**
   * `attributes.get(key, default_attributes.get(key, default_probability))`.
   */
  function Lookup<K>(attributes: map<K, real>, defaults: map<K, real>, defaultProbability: real, key: K): real {
    if key in attributes then attributes[key]
    else if key in defaults then defaults[key]
    else defaultProbability
  }

  /** The probability vector of one entity: one looked-up value per key, in key order. */
  function EncodeWith<K>(keys: seq<K>, attributes: map<K, real>, defaults: map<K, real>, defaultProbability: real): (r: seq<real>)
    ensures |r| == |keys|
    ensures forall i :: 0 <= i < |keys| ==> r[i] == Lookup(attributes, defaults, defaultProbability, keys[i])
  {
    if keys == [] then []
    else
      [Lookup(attributes, defaults, defaultProbability, keys[0])]
      + EncodeWith(keys[1..], attributes, defaults, defaultProbability)
  }

  lemma EncodeAppend<K>(a: seq<K>, b: seq<K>, attributes: map<K, real>, defaults: map<K, real>, dp: real)
    ensures EncodeWith(a + b, attributes, defaults, dp)
         == EncodeWith(a, attributes, defaults, dp) + EncodeWith(b, attributes, defaults, dp)
  {
    var l, r := EncodeWith(a + b, attributes, defaults, dp), EncodeWith(a, attributes, defaults, dp) + EncodeWith(b, attributes, defaults, dp);
    assert |l| == |r|;
    forall i | 0 <= i < |l|
      ensures l[i] == r[i]
    {
      if i < |a| {
        assert (a + b)[i] == a[i];
      } else {
        assert (a + b)[i] == b[i - |a|];
      }
    }
  }

  lemma Rearrange(ea: seq<real>, ek: seq<real>, eb: seq<real>, er: seq<real>)
    requires multiset(er) == multiset(ea + eb)
    ensures multiset(ek + er) == multiset(ea + ek + eb)
  {
  }

  /** Reordering the keys reorders the encoded vector. */
  lemma {:induction false} EncodePermutation<K>(keys: seq<K>, others: seq<K>, attributes: map<K, real>, defaults: map<K, real>, dp: real)
    requires multiset(keys) == multiset(others)
    ensures multiset(EncodeWith(keys, attributes, defaults, dp)) == multiset(EncodeWith(others, attributes, defaults, dp))
    decreases |keys|
  {
    if keys == [] {
      assert |others| == |multiset(others)| == 0;
    } else {
      var a, b := SplitPermutation(keys, others);
      var k := keys[0];
      EncodePermutation(keys[1..], a + b, attributes, defaults, dp);
      var ea, eb := EncodeWith(a, attributes, defaults, dp), EncodeWith(b, attributes, defaults, dp);
      var ek, er := EncodeWith([k], attributes, defaults, dp), EncodeWith(keys[1..], attributes, defaults, dp);
      EncodeAppend(a, b, attributes, defaults, dp);
      EncodeAppend(a + [k], b, attributes, defaults, dp);
      EncodeAppend(a, [k], attributes, defaults, dp);
      EncodeAppend([k], keys[1..], attributes, defaults, dp);
      assert [k] + keys[1..] == keys;
      Rearrange(ea, ek, eb, er);
    }
  }

  /**
   * The order in which the enumeration lists its keys does not change any
   * entity's probability.
   */
  lemma KeyOrderIrrelevant<K>(keys: seq<K>, others: seq<K>, attributes: map<K, real>, defaults: map<K, real>, dp: real, n: int)
    requires multiset(keys) == multiset(others)
    ensures Engine.Compute(EncodeWith(keys, attributes, defaults, dp), n)
         == Engine.Compute(EncodeWith(others, attributes, defaults, dp), n)
  {
    EncodePermutation(keys, others, attributes, defaults, dp);
    Engine.ComputePermutationInvariant(EncodeWith(keys, attributes, defaults, dp), EncodeWith(others, attributes, defaults, dp), n);
  }

  /** Every value of the map lies in [0, 1]. */
  ghost predicate ValuesAreProbabilities<K>(m: map<K, real>) {
    forall k :: k in m ==> 0.0 <= m[k] <= 1.0
  }

  /** The string s right-aligned in a field of the given width, as Python's `>` format alignment does; never truncated. */
  function PadLeft(s: string, width: int): (r: string)
    ensures |r| == if |s| < width then width else |s|
    ensures r[|r| - |s|..] == s
    ensures forall i :: 0 <= i < |r| - |s| ==> r[i] == ' '
    decreases width
  {
    if |s| >= width then s else [' '] + PadLeft(s, width - 1)
  }

  /** `max(map(len, names))`; Python raises on an empty argument. */
  function MaxLength(names: seq<string>): (r: nat)
    requires |names| > 0
    ensures forall i :: 0 <= i < |names| ==> |names[i]| <= r
    ensures exists i :: 0 <= i < |names| && |names[i]| == r
  {
    if |names| == 1 then |names[0]|
    else
      var rest := MaxLength(names[1..]);
      assert forall i :: 1 <= i < |names| ==> names[i] == names[1..][i - 1];
      if |names[0]| >= rest then |names[0]| else rest
  }

  /** One printed line: the right-aligned name and its probability. */
  datatype Line = Line(paddedName: string, probability: real)

  /** One line per pair, in order, with the name right-aligned to `width`. */
  method PadLines(pairs: seq<Pair>, width: int) returns (lines: seq<Line>)
    ensures |lines| == |pairs|
    ensures forall j :: 0 <= j < |pairs| ==> lines[j] == Line(PadLeft(pairs[j].0, width), pairs[j].1)
  {
    lines := [];
    for i := 0 to |pairs|
      invariant |lines| == i
      invariant forall j :: 0 <= j < i ==> lines[j] == Line(PadLeft(pairs[j].0, width), pairs[j].1)
    {
      lines := lines + [Line(PadLeft(pairs[i].0, width), pairs[i].1)];
    }
  }

  class Evaluator<K(==)> {
    const attributesByName: seq<(string, map<K, real>)>
    const attributeType: seq<K>
    const threshold: real
    const n: int
    const roundTo: int
    const defaultAttributes: map<K, real>
    const defaultProbability: real

    /** Stores the configuration, deriving n and defaulting default_attributes to the empty map. */
    constructor (attributesByName: seq<(string, map<K, real>)>, attributeType: seq<K>,
                 threshold: real := DefaultThreshold, n: Option<int> := None,
                 roundTo: int := DefaultRoundTo, defaultAttributes: Option<map<K, real>> := None,
                 defaultProbability: real := DefaultProbability)
      ensures this.attributesByName == attributesByName && this.attributeType == attributeType
      ensures this.threshold == threshold && this.roundTo == roundTo
      ensures this.defaultProbability == defaultProbability
      ensures defaultAttributes.None? ==> this.defaultAttributes == map[]
      ensures defaultAttributes.Some? ==> this.defaultAttributes == defaultAttributes.value
      ensures this.n == DeriveN(n, threshold, |attributeType|)
    {
      this.attributesByName := attributesByName;
      this.threshold := threshold;
      this.roundTo := roundTo;
      this.defaultProbability := defaultProbability;
      this.defaultAttributes := if defaultAttributes.None? then map[] else defaultAttributes.value;
      this.attributeType := attributeType;
      this.n := DeriveN(n, threshold, |attributeType|);
    }

    /** The encoding of one entity's attributes under this configuration. */
    function Encoded(attributes: map<K, real>): seq<real> {
      EncodeWith(attributeType, attributes, defaultAttributes, defaultProbability)
    }

    /** The dataset's names in insertion order. */
    function Names(): (r: seq<string>)
      ensures |r| == |attributesByName|
      ensures forall i :: 0 <= i < |r| ==> r[i] == attributesByName[i].0
    {
      seq(|attributesByName|, i requires 0 <= i < |attributesByName| => attributesByName[i].0)
    }

    /** Each entity's name with its probability of at least n successes, in dataset order. */
    function Scores(): (r: seq<Pair>)
      ensures |r| == |attributesByName|
      ensures forall i :: 0 <= i < |r| ==> r[i] == (attributesByName[i].0, AtLeast(Encoded(attributesByName[i].1), n))
    {
      seq(|attributesByName|, i requires 0 <= i < |attributesByName| =>
        (attributesByName[i].0, AtLeast(Encoded(attributesByName[i].1), n)))
    }

    /**
     * `_encode`: one probability per attribute key, in key order: the
     * entity's own value, else the default attribute, else the default
     * probability.
     */
    method Encode(attributes: map<K, real>) returns (probabilities: seq<real>)
      ensures |probabilities| == |attributeType|
      ensures forall i :: 0 <= i < |attributeType| && attributeType[i] in attributes ==>
        probabilities[i] == attributes[attributeType[i]]
      ensures forall i :: 0 <= i < |attributeType| && attributeType[i] !in attributes && attributeType[i] in defaultAttributes ==>
        probabilities[i] == defaultAttributes[attributeType[i]]
      ensures forall i :: 0 <= i < |attributeType| && attributeType[i] !in attributes && attributeType[i] !in defaultAttributes ==>
        probabilities[i] == defaultProbability
      ensures probabilities == Encoded(attributes)
    {
      probabilities := [];
      for i := 0 to |attributeType|
        invariant |probabilities| == i
        invariant forall j :: 0 <= j < i ==>
          probabilities[j] == Lookup(attributes, defaultAttributes, defaultProbability, attributeType[j])
      {
        var attributeName := attributeType[i];
        var probability := Lookup(attributes, defaultAttributes, defaultProbability, attributeName);
        probabilities := probabilities + [probability];
      }
    }

    /**
     * `_compute_each`: one pair per entity, in dataset order. The engine
     * rejects an n below 1 at the first entity, so an empty dataset never fails.
     */
    method ComputeEach() returns (r: Result<seq<Pair>>)
      ensures r.Failure? <==> n < 1 && |attributesByName| > 0
      ensures r.Failure? ==> r.message == Engine.NotPositiveMessage
      ensures r.Success? ==> |r.value| == |attributesByName|
      ensures r.Success? ==> forall i :: 0 <= i < |attributesByName| ==>
        r.value[i] == (attributesByName[i].0, AtLeast(Encoded(attributesByName[i].1), n))
      ensures r.Success? ==> r.value == Scores()
    {
      var pairs: seq<Pair> := [];
      for i := 0 to |attributesByName|
        invariant n < 1 ==> i == 0
        invariant pairs == Scores()[..i]
      {
        var (name, attributes) := attributesByName[i];
        var probabilities := Encode(attributes);
        var probability := Engine.AtLeastN(probabilities, n);
        if probability.Failure? {
          return Failure(probability.message);
        }
        pairs := pairs + [(name, probability.value)];
      }
      assert pairs == Scores();
      return Success(pairs);
    }

    /**
     * `evaluate`: the pairs of ComputeEach, non-increasing by probability,
     * with equal probabilities in reverse dataset order.
     */
    method Evaluate() returns (r: Result<seq<Pair>>)
      ensures r.Failure? <==> n < 1 && |attributesByName| > 0
      ensures r.Failure? ==> r.message == Engine.NotPositiveMessage
      ensures r.Success? ==> Descending(r.value)
      ensures r.Success? ==> multiset(r.value) == multiset(Scores())
      ensures r.Success? ==> forall v :: Filter(r.value, v) == Reverse(Filter(Scores(), v))
      ensures r.Success? ==> r.value == RankDescending(Scores())
    {
      var each := ComputeEach();
      if each.Failure? {
        return Failure(each.message);
      }
      RankDescendingCorrect(each.value);
      return Success(RankDescending(each.value));
    }

    /**
     * The lines of `_compute_prints`: the longest name's length is taken
     * first (failing on an empty dataset), then every evaluated pair gives
     * one line, in evaluation order, with its name right-aligned to that length.
     */
    method ComputePrints() returns (r: Result<seq<Line>>)
      ensures |attributesByName| == 0 ==> r == Failure(EmptyMaxMessage)
      ensures |attributesByName| > 0 && n < 1 ==> r == Failure(Engine.NotPositiveMessage)
      ensures r.Success? <==> |attributesByName| > 0 && n >= 1
      ensures r.Success? ==> |r.value| == |attributesByName|
      ensures r.Success? ==> forall i :: 0 <= i < |r.value| ==>
        r.value[i] == Line(PadLeft(RankDescending(Scores())[i].0, MaxLength(Names())), RankDescending(Scores())[i].1)
      ensures r.Success? ==> forall i :: 0 <= i < |r.value| ==> |r.value[i].paddedName| == MaxLength(Names())
    {
      if |attributesByName| == 0 {
        return Failure(EmptyMaxMessage);
      }
      var maxName := MaxLength(Names());
      var ranked := Evaluate();
      if ranked.Failure? {
        return Failure(ranked.message);
      }
      var pairs := ranked.value;
      var lines := PadLines(pairs, maxName);
      LinesAreAligned(pairs, lines);
      return Success(lines);
    }

    /** Padding the names of a reordering of the scores to the longest name aligns them all. */
    lemma LinesAreAligned(pairs: seq<Pair>, lines: seq<Line>)
      requires |attributesByName| > 0
      requires multiset(pairs) == multiset(Scores()) && |lines| == |pairs|
      requires forall j :: 0 <= j < |pairs| ==> lines[j] == Line(PadLeft(pairs[j].0, MaxLength(Names())), pairs[j].1)
      ensures forall j :: 0 <= j < |lines| ==> |lines[j].paddedName| == MaxLength(Names())
    {
      forall j | 0 <= j < |lines|
        ensures |lines[j].paddedName| == MaxLength(Names())
      {
        RankedNameIsDatasetName(pairs, j);
      }
    }

    /** Every name in a reordering of the scores is no longer than the longest dataset name. */
    lemma RankedNameIsDatasetName(pairs: seq<Pair>, i: int)
      requires |attributesByName| > 0
      requires multiset(pairs) == multiset(Scores()) && 0 <= i < |pairs|
      ensures |pairs[i].0| <= MaxLength(Names())
    {
      assert pairs[i] in multiset(Scores());
      var j :| 0 <= j < |Scores()| && Scores()[j] == pairs[i];
      assert Names()[j] == pairs[i].0;
    }

    /**
     * When every supplied probability lies in [0, 1], so does every score.
     */
    lemma ScoresAreProbabilities()
      requires 0.0 <= defaultProbability <= 1.0 && ValuesAreProbabilities(defaultAttributes)
      requires forall i :: 0 <= i < |attributesByName| ==> ValuesAreProbabilities(attributesByName[i].1)
      ensures forall i :: 0 <= i < |Scores()| ==> 0.0 <= Scores()[i].1 <= 1.0
    {
      forall i | 0 <= i < |Scores()|
        ensures 0.0 <= Scores()[i].1 <= 1.0
      {
        var attributes := attributesByName[i].1;
        assert IsProbabilities(Encoded(attributes));
        AtLeastBounds(Encoded(attributes), n);
      }
    }
  }
}
