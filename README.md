# At-least-n probability ranking, modelled in Dafny

The repository ranks named entities by the probability that at least n of
their attributes hold. Each attribute holds independently, with its own
probability. The project has two parts:

- **The engine** (`at_least_n.py`) takes a list of success probabilities
  p0 … pN−1 and a count n. It returns the probability that at least n of
  the trials succeed, which is the survival function of a Poisson-binomial
  distribution. It uses memoised recursive helpers over a prefix bound m,
  meaning "trials 0..m".
- **The evaluator** (`compute.py`) does four things:
  - it derives n from an explicit value or from a threshold share of the
    attribute keys;
  - it encodes each entity's partial attribute map as a full probability
    vector, using a two-level default;
  - it runs the engine on each entity;
  - it ranks the (name, probability) pairs from most to least probable,
    and right-aligns the names for printing.

The model has three layers:

- `poisson_binomial.dfy` (module `PoissonBinomial`) defines the
  distribution independently of the engine:
  - `Exactly(s, k)` conditions on the first trial;
  - `AtLeast(s, k)` is the sum of `Exactly(s, j)` for j = k..|s|.

  It proves total probability, bounds, monotonicity in k and invariance
  under permutation.
- `at_least_n.dfy` (module `AtLeastN`) holds the engine's helpers as plain
  functions over the fixed list `ps`. They keep the code's own recursion on
  the last trial and its `m == 0` shortcuts. Each helper is proved equal to
  the specification, and `Compute` is the engine's entry point.
  `at_least_n_examples.dfy` proves rows of the engine's test table.
- `ranking.dfy` (module `Ranking`) models `reversed(sorted(…,
  key=itemgetter(1)))` as a stable insertion sort followed by a reversal.
  It proves that the sort is a permutation, that it is ascending, and that
  it is stable. It also proves that these three properties fix the result
  uniquely, so the insertion sort stands for any stable sort.
- `compute.dfy` (module `Compute`) holds the class `Evaluator`. Its fields
  are set once by the constructor (`__init__`). Its methods `Encode` and
  `ComputeEach` are loops, as in the source.
  - `Evaluate` ranks the result of `ComputeEach`.
  - `ComputePrints` builds the printed lines.
  - `compute_examples.dfy` proves the unit-test configurations and datasets.
- `results.dfy` holds the `Option` and `Result` types. A Python exception
  becomes a `Failure` that carries the exception's message.

Probabilities are exact `real`s, so each expected value of the tests is
proved as an exact equality. `at_least_n_examples.dfy` covers all twenty
rows of the at_least_n test table.

## Model

| member | source | states |
|---|---|---|
| AtLeastN.Compute | at_least_n.py:19-24 | n < 1 fails with "n must be greater than 0", whatever the list (even an empty one). Otherwise the result is the probability that at least n of all trials succeed. It is 0.0 when n exceeds the number of trials, and lies in [0, 1] when every input is a probability |
| AtLeastN.ZeroConditionCorrect | at_least_n.py:26-35 | `_zero_condition(m, n)` holds exactly when trials 0..m are fewer than n (for n ≥ 1 the `m < 0` disjunct is the empty prefix). When it holds, both exactly n and at least n successes have probability 0, so returning 0.0 there is right |
| AtLeastN.ReduceIsProduct | at_least_n.py:43-44 | the `functools.reduce` fold multiplies its start value by (1 − q) for every q of the list |
| AtLeastN.AllZeroCorrect | at_least_n.py:37-44 | `_all_zero(m)` equals the fold over trials 0..m, and so the m == 0 shortcut agrees with the general product. It also equals the product of (1 − p_i) and the probability of zero successes among trials 0..m |
| AtLeastN.AtLeastOneCorrect | at_least_n.py:46-49 | `_at_least_one(m)` is 1 minus the product of (1 − p_i) over trials 0..m, which is the probability that at least one of trials 0..m succeeds |
| AtLeastN.ExactlyOneCorrect | at_least_n.py:51-58 | `_exactly_one(m)` is the probability that exactly one of trials 0..m succeeds. The recurrence uses `_all_zero(m − 1)` as "exactly zero of the earlier trials" |
| AtLeastN.ExactlyNCorrect | at_least_n.py:60-75 | for every n ≥ 1 and −1 ≤ m < len, `_exactly_n(m, n)` is the probability that exactly n of trials 0..m succeed. This covers the zero condition (m < 0 or m + 1 < n) and the delegation to `_exactly_one` for n == 1 |
| AtLeastN.NOrMoreCorrect | at_least_n.py:77-92 | for every n ≥ 1 and −1 ≤ m < len, `_n_or_more(m, n)` is the probability that at least n of trials 0..m succeed. This includes the n == 1 case through `_at_least_one` |
| AtLeastN.NOrMoreIsSumOfExactlyN | at_least_n.py:77-92 | in the engine's own terms, `_n_or_more(m, n)` is the sum of `_exactly_n(m, k)` for k = n..m+1 |
| AtLeastN.ComputePermutationInvariant | test_at_least_n.py:57-73 | the result, and the error case too, is the same for every permutation of the probability list |
| AtLeastN.ComputeMonotone | at_least_n.py:19-24 | for probabilities in [0, 1], raising n by one never raises the result |
| AtLeastN.ComputeOneIsComplement | at_least_n.py:46-49 | with n = 1 the result is 1 minus the product of the failure probabilities |
| PoissonBinomial.TotalProbability | at_least_n.py:7-11 | the probabilities of 0..N successes sum to 1 |
| PoissonBinomial.AtLeastBounds | at_least_n.py:7-11 | the probability of at least k successes lies in [0, 1] when every trial's probability does |
| PoissonBinomial.AtLeastMonotone | at_least_n.py:7-11 | the probability of at least k + 1 successes is at most that of at least k |
| PoissonBinomial.AtLeastPermutation | test_at_least_n.py:57-73 | the survival function depends only on the multiset of probabilities |
| PoissonBinomial.AtLeastAllIsProduct | at_least_n.py:7-11 | at least N successes out of N trials is the product of all the probabilities |
| AtLeastNExamples.NonPositiveRejected | test_at_least_n.py:75-81 | every n ≤ 0 is rejected with the error message, for any list |
| AtLeastNExamples.EmptyList | test_at_least_n.py:83-85 | the empty list gives 0.0 for every n ≥ 1 |
| AtLeastNExamples.SingleTrial | test_at_least_n.py:26 | a single trial gives its own probability for n = 1 |
| AtLeastNExamples.CertainTrials | test_at_least_n.py:24-34 | [1] with n = 1 and 2, [1, 0] with n = 1 and 2, and [1, 1, 0] with n = 1 give the table's values |
| AtLeastNExamples.MoreCertainTrials | test_at_least_n.py:23-35 | [0] with n = 2 gives 0.0. [1, 1] with n = 1 gives 1.0. [1, 0, 0] gives 1.0 for n = 1 and 0.0 for n = 2. [1, 1, 1] with n = 1 gives 1.0 |
| AtLeastNExamples.FourFairCoins | test_at_least_n.py:36 | four fair coins with n = 1 give exactly 0.9375 |
| AtLeastNExamples.CertainThenFairCoins | test_at_least_n.py:37-40 | [1, 1, 1, 0.5] with n = 4 gives 0.5. [1, 1, 1, 0.5, 0.5] with n = 5 gives 0.25. [1, 1, 1, 0.5, 0.5, 0.5] with n = 5 gives 0.5 |
| AtLeastNExamples.CertainThenZeroTail | test_at_least_n.py:39-41 | [1, 1, 1, 0.5, 0.5, 0] with n = 5 gives 0.25, and [1, 1, 1, 0.9, 0.2, 0] with n = 5 gives exactly 0.18 |
| AtLeastNExamples.ThreeFairCoins | test_at_least_n.py:30-31 | [0.5, 0.5, 0.5] gives 0.5 for n = 2 and 0.125 for n = 3 |
| AtLeastNExamples.SixTrials | test_at_least_n.py:42 | [1, 1, 1, 0.9, 0.2, 0.1] with n = 5 gives exactly 0.254 |
| AtLeastNExamples.SixTrialsAnyOrder | test_at_least_n.py:57-64 | every permutation of that list gives 0.254 too |
| Ranking.SortPermutation | compute.py:116-117 | the sort returns a permutation of its input |
| Ranking.SortAscendingIsAscending | compute.py:116-117 | the sort's output is non-decreasing in the probability |
| Ranking.SortStable | compute.py:116-117 | for every probability value, the pairs with that value keep their input order |
| Ranking.SortAscendingUnique | compute.py:116-117 | any ascending sequence that keeps each value's input order is the sort's result, so every stable ascending sort agrees with this one |
| Ranking.RankDescendingCorrect | compute.py:113-117 | the reversed sort is non-increasing and a permutation of its input. Pairs with equal probability appear in reverse input order |
| Compute.Ceil | compute.py:85 | `math.ceil`: the least integer not below its argument |
| Compute.DeriveN | compute.py:85 | an explicit, non-zero n is used as given. An absent n or n = 0 gives the ceiling of threshold × number of keys |
| Compute.DerivedNPositive | compute.py:85 | a derived n is at least 1 exactly when threshold × number of keys is positive |
| Compute.Evaluator.constructor | compute.py:53-85 | the constructor keeps the source's defaults: threshold 0.8, n absent, round_to 3, default_attributes absent and default_probability 0.5. It stores every setting, turns an absent default_attributes into the empty map, and derives n |
| Compute.Evaluator.Encode | compute.py:87-106 | one probability per attribute key, in key order, however sparse the entity's map is. Entry i is the entity's own value for key i if present, else the default attribute for key i if present, else the default probability |
| Compute.EncodePermutation | compute.py:97-106 | reordering the attribute keys permutes the encoded vector |
| Compute.KeyOrderIrrelevant | compute.py:97-111 | the order in which the enumeration lists its keys changes no entity's result |
| Compute.Evaluator.ComputeEach | compute.py:108-111 | fails, with the engine's message, exactly when n < 1 and the dataset is non-empty. Otherwise it gives one pair per entity, in dataset order: the entity's name and the probability that at least n of its encoded attributes hold |
| Compute.Evaluator.Evaluate | compute.py:113-117 | fails exactly when ComputeEach fails. Otherwise the result is a permutation of ComputeEach's pairs and is non-increasing by probability. Pairs of equal probability come in reverse dataset order, and the result is the reversed stable sort |
| Compute.Evaluator.ScoresAreProbabilities | compute.py:99-111 | when every supplied and default probability lies in [0, 1], so does every entity's result |
| Compute.MaxLength | compute.py:121 | the length of the longest name: no name is longer, and some name has that length |
| Compute.PadLeft | compute.py:123-126 | right alignment in a field: the string is kept whole at the end, preceded by spaces up to the width, and is never truncated |
| Compute.PadLines | compute.py:122-127 | one line per pair, in the pairs' order, each holding the pair's name right-aligned to the given width and the pair's probability |
| Compute.Evaluator.ComputePrints | compute.py:119-127 | an empty dataset fails (max() of nothing) before n is checked. Then the evaluation error for n < 1 is passed on. Otherwise there is one line per evaluated pair, in evaluation order, with the name right-aligned to the length of the longest dataset name |
| ComputeExamples.MakeAttributes | test_compute.py:55-61 | the test helper assigns the given probabilities to the first keys in order and leaves the other keys unset |
| ComputeExamples.SetAll | test_compute.py:70-88 | all seven explicit settings are stored as given: the dataset, the key enumeration, threshold 0.6, n = 10, round_to 5, the empty default attributes and default probability 0.1 |
| ComputeExamples.SetThreshold | test_compute.py:89-99 | the dataset and the key enumeration are stored, and with threshold 0.6 and three keys n is ceil(1.8) = 2 |
| ComputeExamples.NoDefaultAttributes | test_compute.py:100-108 | the dataset and the key enumeration are stored; without default_attributes the default attributes are the empty map, and the other defaults apply |
| ComputeExamples.ZeroNMeansDerived | compute.py:85 | n = 0 counts as absent, so the threshold decides |
| ComputeExamples.NoMissing | test_compute.py:123-136 | the 'no_missing' dataset ranks as name_1 0.126, name_0 0.125, name_2 0.025 |
| ComputeExamples.DefaultProbabilityCase | test_compute.py:137-151 | with default_probability 1.0, the entity with no attributes scores 1.0. The ranking is name_2 1.0, name_1 0.2, name_0 0.125 |
| ComputeExamples.DefaultAttributesCase | test_compute.py:152-167 | default attributes of 0.0 override default_probability 1.0, so the empty entity scores 0.0. The ranking is name_0 0.875, name_1 0.25, name_2 0.0 |
| ComputeExamples.PrintCase | test_compute.py:178-195 | the printed lines are "name_1", "   n_0" and " name2", with 0.976, 0.875 and 0.775 |

The helpers' preconditions capture the index-safety property: −1 ≤ m <
len and n ≥ 1, or 0 ≤ m < len wherever `probabilities[m]` is read. Every
recursive call is checked against them, and termination is proved on m + 1.
So the code reads `probabilities[m]` only with 0 ≤ m < len, and its
recursion ends.

## Left out

- Floating point: probabilities are exact reals. The tests'
  approximate comparisons become exact equalities, which hold for every
  case proved here.
- Compute.DeriveN: takes the ceiling of the exact product threshold ×
  number of keys, not of its floating-point value. The two can differ when
  the float product rounds across an integer.
- `round(probability, round_to)`, the `'{:.Nf}'` number formatting and the
  `'\n'.join` of `__str__`: these are float-to-decimal rendering. A printed
  line is modelled as its right-aligned name plus the unrounded
  probability, so `round_to` is stored but never read.
- `functools.lru_cache` memoisation: it only avoids recomputation, so the
  helpers are plain functions. The caching of `evaluate` is left out too: a
  second call there returns the already-exhausted generator.
- The engine's class object and `list(probabilities)`: the list, which is
  fixed once in `__init__`, is the parameter `ps` of every helper. The
  wrapper `at_least_n` is the function `AtLeastN.AtLeastN`, which is
  `Compute` itself.
- Recursion depth: the model has no stack limit. CPython raises
  `RecursionError` when `_exactly_one`, `_exactly_n` or `_n_or_more`
  recurse deeper than its limit, which happens for long lists such as
  `at_least_n([0.5] * 2000, 2)`. These helpers recurse once per trial
  (at_least_n.py:57-58, 74-75, 92). The model returns the exact value for
  every list length.
- `_exactly_n(m, 0)`: the source would return 0.0 here when m ≥ 0, but no
  call ever reaches it, because every call keeps n ≥ 1. The model
  therefore requires n ≥ 1.
- Python's `enum.Enum`: attribute keys are a sequence of values of a
  type with equality. Dictionaries are sequences and maps. The model does
  not need names or keys to be distinct, so it is slightly more general
  than the source.
- Generators: `_compute_each`, `evaluate` and `_compute_prints` return
  whole sequences, so an error surfaces as a `Failure` of the call, not at
  the first consumption of an element. The text of the error from an empty
  `max()` is Python's classic message.
- The unused `logging` import and the test harness plumbing (dataclasses,
  `unittest`, `subTest`).
