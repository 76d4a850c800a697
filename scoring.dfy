/** The scoring block of pam-abac.py (lines 93-98): true positives, false
    positives and false negatives as set comprehensions over the detected and
    ground-truth user sets, and the `max(1, ...)`-guarded rates as reals. */
module Scoring {
  import SetFacts

  /** `len([user for user in detected_paths if user in ground_truth_paths])`. */
  function TruePositives<T>(detected: set<T>, truth: set<T>): (n: nat)
    ensures n <= |detected| && n <= |truth|
    ensures n == |detected| <==> detected <= truth
  {
    SetFacts.SubsetCard(detected * truth, detected);
    SetFacts.SubsetCard(detected * truth, truth);
    assert detected * truth == detected <==> detected <= truth;
    |detected * truth|
  }

  /** `len([user for user in detected_paths if user not in ground_truth_paths])`. */
  function FalsePositives<T>(detected: set<T>, truth: set<T>): (n: nat)
    ensures n <= |detected|
    ensures n == 0 <==> detected <= truth
  {
    SetFacts.SubsetCard(detected - truth, detected);
    SetFacts.DiffEmpty(detected, truth);
    |detected - truth|
  }

  /** `len([user for user in ground_truth_paths if user not in detected_paths])`. */
  function FalseNegatives<T>(detected: set<T>, truth: set<T>): (n: nat)
    ensures n <= |truth|
    ensures n == 0 <==> truth <= detected
  {
    SetFacts.SubsetCard(truth - detected, truth);
    SetFacts.DiffEmpty(truth, detected);
    |truth - detected|
  }

  function Max1(n: nat): (m: nat)
    ensures m >= 1 && m >= n
    ensures n >= 1 ==> m == n
  {
    if n < 1 then 1 else n
  }

  /** `fpr = false_positives / max(1, false_positives + true_positives)`. */
  function FalsePositiveRate<T>(detected: set<T>, truth: set<T>): (r: real)
    ensures 0.0 <= r
  {
    QuotientBounds(FalsePositives(detected, truth) as real,
                   Max1(FalsePositives(detected, truth) + TruePositives(detected, truth)) as real);
    FalsePositives(detected, truth) as real
      / Max1(FalsePositives(detected, truth) + TruePositives(detected, truth)) as real
  }

  /** `fnr = false_negatives / max(1, len(ground_truth_paths))`. */
  function FalseNegativeRate<T>(detected: set<T>, truth: set<T>): (r: real)
    ensures 0.0 <= r
  {
    QuotientBounds(FalseNegatives(detected, truth) as real, Max1(|truth|) as real);
    FalseNegatives(detected, truth) as real / Max1(|truth|) as real
  }

  /** The three comprehensions partition the detected and the ground-truth sets. */
  lemma Partition<T>(detected: set<T>, truth: set<T>)
    ensures TruePositives(detected, truth) + FalsePositives(detected, truth) == |detected|
    ensures TruePositives(detected, truth) + FalseNegatives(detected, truth) == |truth|
  {
    assert detected == (detected * truth) + (detected - truth);
    assert truth == (detected * truth) + (truth - detected);
  }

  lemma RatioBounds(num: nat, den: nat)
    requires num <= Max1(den)
    ensures 0.0 <= num as real / Max1(den) as real <= 1.0
  {
  }

  /** Both rates lie in [0, 1], and each is 0 exactly when its numerator set is empty. */
  lemma RateBounds<T>(detected: set<T>, truth: set<T>)
    ensures 0.0 <= FalsePositiveRate(detected, truth) <= 1.0
    ensures 0.0 <= FalseNegativeRate(detected, truth) <= 1.0
    ensures FalsePositiveRate(detected, truth) == 0.0 <==> detected - truth == {}
    ensures FalseNegativeRate(detected, truth) == 0.0 <==> truth - detected == {}
  {
    Partition(detected, truth);
    var fp, tp := FalsePositives(detected, truth), TruePositives(detected, truth);
    RatioBounds(fp, fp + tp);
    RatioBounds(FalseNegatives(detected, truth), |truth|);
    if fp != 0 {
      assert fp as real / Max1(fp + tp) as real > 0.0;
    }
    if FalseNegatives(detected, truth) != 0 {
      assert FalseNegatives(detected, truth) as real / Max1(|truth|) as real > 0.0;
    }
  }

  /** A detector that reports exactly the ground truth scores perfectly. */
  lemma ExactDetection<T>(users: set<T>)
    ensures TruePositives(users, users) == |users|
    ensures FalsePositives(users, users) == 0 && FalseNegatives(users, users) == 0
    ensures FalsePositiveRate(users, users) == 0.0 && FalseNegativeRate(users, users) == 0.0
  {
    assert users * users == users;
    assert users - users == {};
  }

  /** An example: reports {A, B} against ground truth {A} give TP = 1,
      FP = 1, FN = 0 and fpr = 0.5; reports {A} against ground truth {A, C}
      give FN = 1 and fnr = 0.5. */
  lemma WorkedExample()
    ensures TruePositives({'A', 'B'}, {'A'}) == 1 && FalsePositives({'A', 'B'}, {'A'}) == 1
    ensures FalseNegatives({'A', 'B'}, {'A'}) == 0
    ensures FalseNegatives({'A'}, {'A', 'C'}) == 1
    ensures FalsePositiveRate({'A', 'B'}, {'A'}) == 0.5 && FalseNegativeRate({'A'}, {'A', 'C'}) == 0.5
  {
    assert {'A', 'B'} * {'A'} == {'A'};
    assert {'A', 'B'} - {'A'} == {'B'};
    assert {'A'} - {'A', 'B'} == {};
    assert {'A', 'C'} - {'A'} == {'C'};
  }

  /** `detection_accuracy = len(escalation_paths) / max(1, population)`. */
  function DetectionAccuracy(flagged: nat, population: nat): (r: real)
    ensures 0.0 <= r
    ensures flagged <= population ==> r <= 1.0
    ensures r == 0.0 <==> flagged == 0
    ensures flagged == population ==> r == (if population == 0 then 0.0 else 1.0)
    ensures population == 0 ==> r == flagged as real
  {
    QuotientBounds(flagged as real, Max1(population) as real);
    flagged as real / Max1(population) as real
  }

  lemma QuotientBounds(a: real, d: real)
    requires 0.0 <= a && 1.0 <= d
    ensures 0.0 <= a / d
    ensures a <= d ==> a / d <= 1.0
    ensures a / d == 0.0 <==> a == 0.0
    ensures a == d ==> a / d == 1.0
  {
    assert a / d * d == a;
  }

  /** `sum(path_lengths)`: no smaller than any of its terms. */
  function Sum(s: seq<nat>): (r: nat)
    ensures forall i :: 0 <= i < |s| ==> s[i] <= r
  {
    if s == [] then 0 else Sum(s[..|s| - 1]) + s[|s| - 1]
  }

  /** `path_complexity = sum(path_lengths) / len(path_lengths) if path_lengths else 0`. */
  function Average(s: seq<nat>): (r: real)
    ensures 0.0 <= r
    ensures |s| == 0 ==> r == 0.0
  {
    if |s| == 0 then 0.0 else Sum(s) as real / |s| as real
  }

  lemma {:induction false} SumConstant(s: seq<nat>, k: nat)
    requires forall i :: 0 <= i < |s| ==> s[i] == k
    ensures Sum(s) == k * |s|
  {
    if s != [] {
      SumConstant(s[..|s| - 1], k);
    }
  }

  /** When all recorded lengths equal k, the path complexity is k (or 0 when none was recorded). */
  lemma AverageConstant(s: seq<nat>, k: nat)
    requires forall i :: 0 <= i < |s| ==> s[i] == k
    ensures Average(s) == if |s| == 0 then 0.0 else k as real
  {
    SumConstant(s, k);
    if |s| > 0 {
      assert (k * |s|) as real == k as real * |s| as real;
    }
  }
}
