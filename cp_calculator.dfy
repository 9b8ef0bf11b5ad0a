/** The value-for-money ("CP") scoring of cleaned products (utils/cp_calculator.py,
    class `CPCalculator`): per-feature scores, the weighted CP formula, scoring a whole
    list, ranking, a per-feature breakdown, a budget filter and summary statistics. */
module CpCalculator {
  import opened Strings
  import opened Dicts
  import opened DataCleaner
  import opened StableSort

  // ------------------------------------------------------------ arithmetic
  // Products and quotients of unknowns are kept behind these names, so that the
  // solver treats them as terms and only the lemmas below multiply out.

  function Times(a: real, b: real): real { a * b }

  function Over(a: real, b: real): real
    requires b != 0.0
  {
    a / b
  }

  lemma OverBounds(a: real, b: real)
    requires b > 0.0
    ensures 0.0 <= a <= b ==> 0.0 <= Over(a, b) <= 1.0
    ensures a <= 0.0 ==> Over(a, b) <= 0.0
    ensures a >= b ==> Over(a, b) >= 1.0
  {
  }

  lemma OverMonotone(a: real, c: real, b: real)
    requires b > 0.0 && a <= c
    ensures Over(a, b) <= Over(c, b)
  {
  }

  lemma TimesBounds(a: real, b: real)
    requires 0.0 <= a <= 1.0 && b >= 0.0
    ensures 0.0 <= Times(a, b) <= b
  {
    NonNegativeProduct(a, b);
    NonNegativeProduct(1.0 - a, b);
    assert (1.0 - a) * b == b - a * b;
  }

  lemma NonNegativeProduct(a: real, b: real)
    requires a >= 0.0 && b >= 0.0
    ensures a * b >= 0.0
  {
  }

  /** `min(max(x, 0), 1)`. */
  function Clamp01(x: real): real
  {
    if x < 0.0 then 0.0 else if x > 1.0 then 1.0 else x
  }

  // ------------------------------------------------- calculate_feature_score

  /** `calculate_feature_score`: the number in `value` as a share of `maxValue`,
      limited to [0, 1]; 0.5 for a non-numeric feature or a zero maximum. */
  function FeatureScore(value: string, maxValue: real, isNumeric: bool): (r: real)
    ensures !isNumeric || maxValue == 0.0 ==> r == 0.5
    ensures 0.0 <= r <= 1.0
    ensures isNumeric && maxValue < 0.0 ==> r == 0.0
  {
    if !isNumeric || maxValue == 0.0 then 0.5
    else
      var numeric := ExtractNumeric(Str(value));
      var score := if maxValue > 0.0 then Over(numeric, maxValue) else 0.0;
      Clamp01(score)
  }

  /** Below the maximum the score is exactly the share of the maximum, and at or above
      it the score is 1. */
  lemma FeatureScoreShare(value: string, maxValue: real)
    requires maxValue > 0.0
    ensures ExtractNumeric(Str(value)) <= maxValue ==>
              FeatureScore(value, maxValue, true) == Over(ExtractNumeric(Str(value)), maxValue)
    ensures ExtractNumeric(Str(value)) >= maxValue ==> FeatureScore(value, maxValue, true) == 1.0
  {
    var n := ExtractNumeric(Str(value));
    OverBounds(n, maxValue);
  }

  /** For a fixed positive maximum, a larger number never scores lower. */
  lemma FeatureScoreMonotone(a: string, b: string, maxValue: real)
    requires maxValue > 0.0
    requires ExtractNumeric(Str(a)) <= ExtractNumeric(Str(b))
    ensures FeatureScore(a, maxValue, true) <= FeatureScore(b, maxValue, true)
  {
    OverMonotone(ExtractNumeric(Str(a)), ExtractNumeric(Str(b)), maxValue);
  }

  /** A run of digits followed by a unit (or nothing) reads as the integer. */
  lemma DigitsThenUnit(d: string, t: string)
    requires d != [] && AllDigits(d) && (t == [] || (!IsDigit(t[0]) && t[0] != '.'))
    ensures ExtractNumeric(Str(d + t)) == DecimalValue(d) as real
  {
    FirstNumberIntegerAt(d, t);
    assert Show(Str(d + t)) == d + t;
  }

  lemma SixteenIsSixteen()
    ensures ExtractNumeric(Str("16")) == 16.0
    ensures ExtractNumeric(Str("16GB")) == 16.0
  {
    assert DecimalValue("16") == 16 by {
      assert "16"[..1] == "1";
      assert "1"[..0] == "";
    }
    assert "16" + "" == "16";
    DigitsThenUnit("16", "");
    assert "16" + "GB" == "16GB";
    DigitsThenUnit("16", "GB");
  }

  /** The program's own self-test: "16" against the maximum 16 scores 1. */
  lemma FeatureScoreSixteen()
    ensures FeatureScore("16", 16.0, true) == 1.0
  {
    SixteenIsSixteen();
    FeatureScoreShare("16", 16.0);
  }

  // ------------------------------------------------------ calculate_cp_value

  /** Every list in the common-feature index is non-empty; `max()` of an empty list would
      raise, and the index built by `extract_common_features` never has one. */
  predicate NonEmptyLists(common: Dict<string, seq<string>>)
  {
    forall f :: f in Keys(common) ==> |Get(common, f)| > 0
  }

  /** Index of the first largest value (Python's `max` keeps the first maximum). */
  function FirstMax(xs: seq<real>): (i: nat)
    requires |xs| > 0
    ensures i < |xs|
    ensures forall j :: 0 <= j < |xs| ==> xs[j] <= xs[i]
    ensures forall j :: 0 <= j < i ==> xs[j] < xs[i]
  {
    if |xs| == 1 then 0
    else
      var n := |xs| - 1;
      var i := FirstMax(xs[..n]);
      assert forall j :: 0 <= j < n ==> xs[..n][j] == xs[j];
      if xs[n] > xs[i] then n else i
  }

  /** Index of the first smallest value (Python's `min` keeps the first minimum). */
  function FirstMin(xs: seq<real>): (i: nat)
    requires |xs| > 0
    ensures i < |xs|
    ensures forall j :: 0 <= j < |xs| ==> xs[i] <= xs[j]
    ensures forall j :: 0 <= j < i ==> xs[i] < xs[j]
  {
    if |xs| == 1 then 0
    else
      var n := |xs| - 1;
      var i := FirstMin(xs[..n]);
      assert forall j :: 0 <= j < n ==> xs[..n][j] == xs[j];
      if xs[n] < xs[i] then n else i
  }

  /** The number each value denotes, in order. */
  function Numbers(vs: seq<string>): (r: seq<real>)
    ensures |r| == |vs| && forall i :: 0 <= i < |vs| ==> r[i] == ExtractNumeric(Str(vs[i]))
  {
    seq(|vs|, i requires 0 <= i < |vs| => ExtractNumeric(Str(vs[i])))
  }

  /** The largest number the values denote (the list is non-empty). */
  function MaxNumeric(vs: seq<string>): (r: real)
    requires |vs| > 0
    ensures forall i :: 0 <= i < |vs| ==> ExtractNumeric(Str(vs[i])) <= r
    ensures exists i :: 0 <= i < |vs| && r == ExtractNumeric(Str(vs[i]))
  {
    var xs := Numbers(vs);
    var i := FirstMax(xs);
    assert xs[i] == ExtractNumeric(Str(vs[i]));
    xs[i]
  }

  /** The maximum a feature's value is scored against: the largest number in the
      feature's index list, or the value's own number when the index lacks the feature. */
  function FeatureMax(value: string, f: string, common: Dict<string, seq<string>>): real
    requires NonEmptyLists(common)
  {
    if f in Keys(common) then MaxNumeric(Get(common, f)) else ExtractNumeric(Str(value))
  }

  /** The score of feature `f` of product `p`, which must have it. */
  function ScoreOf(p: Product, f: string, common: Dict<string, seq<string>>): real
    requires NonEmptyLists(common) && f in Keys(p.specs)
  {
    var value := Get(p.specs, f);
    FeatureScore(value, FeatureMax(value, f, common), true)
  }

  /** `(weighted_score, total_weight)` after the loop has seen the entries `weights`. */
  function Totals(p: Product, weights: seq<(string, real)>, common: Dict<string, seq<string>>): (real, real)
    requires NonEmptyLists(common)
  {
    if weights == [] then (0.0, 0.0)
    else
      var n := |weights| - 1;
      var (ws, tw) := Totals(p, weights[..n], common);
      var (f, w) := weights[n];
      if f in Keys(p.specs) then (ws + Times(ScoreOf(p, f, common), w), tw + w) else (ws, tw)
  }

  /** One more iteration of the loop over the weights. */
  lemma TotalsStep(p: Product, weights: seq<(string, real)>, i: nat, common: Dict<string, seq<string>>)
    requires NonEmptyLists(common) && i < |weights|
    ensures weights[i].0 !in Keys(p.specs) ==>
              Totals(p, weights[..i + 1], common) == Totals(p, weights[..i], common)
    ensures weights[i].0 in Keys(p.specs) ==>
              Totals(p, weights[..i + 1], common).0
                == Totals(p, weights[..i], common).0 + Times(ScoreOf(p, weights[i].0, common), weights[i].1)
              && Totals(p, weights[..i + 1], common).1 == Totals(p, weights[..i], common).1 + weights[i].1
  {
    assert weights[..i + 1][..i] == weights[..i];
  }

  /** The rating bonus: 1 plus a fifth of the rating's share of 5, so 1 to 1.2. */
  function RatingBonus(rating: real): real
  {
    1.0 + (rating / 5.0) * 0.2
  }

  /** The weighted feature score per thousand of price. */
  function BaseCp(weighted: real, total: real, price: real): real
    requires total != 0.0 && price != 0.0
  {
    Over(Over(weighted, total), price / 1000.0)
  }

  /** What `calculate_cp_value` returns, before its final `round(·, 4)`. */
  function CpValueOf(p: Product, weights: seq<(string, real)>, common: Dict<string, seq<string>>): real
    requires NonEmptyLists(common)
  {
    if p.price <= 0.0 then 0.0
    else
      var (ws, tw) := Totals(p, weights, common);
      var total := if tw == 0.0 then 1.0 else tw;
      Times(BaseCp(ws, total, p.price), RatingBonus(p.rating))
  }

  /** `calculate_cp_value`: the accumulating loop over the weights. */
  method CalculateCpValue(p: Product, weights: Dict<string, real>, common: Dict<string, seq<string>>)
    returns (cp: real)
    requires NonEmptyLists(common)
    ensures cp == CpValueOf(p, weights, common)
  {
    if p.price <= 0.0 {
      return 0.0;
    }
    var weighted := 0.0;
    var total := 0.0;
    for i := 0 to |weights|
      invariant weighted == Totals(p, weights[..i], common).0
      invariant total == Totals(p, weights[..i], common).1
    {
      TotalsStep(p, weights, i, common);
      var (feature, weight) := weights[i];
      if feature !in Keys(p.specs) {
        continue;
      }
      var value := Get(p.specs, feature);
      var maxValue;
      if feature in Keys(common) {
        maxValue := MaxNumeric(Get(common, feature));
      } else {
        maxValue := ExtractNumeric(Str(value));
      }
      var score := FeatureScore(value, maxValue, true);
      assert score == ScoreOf(p, feature, common);
      weighted := weighted + Times(score, weight);
      total := total + weight;
    }
    assert weights[..|weights|] == weights;
    assert (weighted, total) == Totals(p, weights, common);
    if total == 0.0 {
      total := 1.0;
    }
    var base := BaseCp(weighted, total, p.price);
    var bonus := RatingBonus(p.rating);
    cp := Times(base, bonus);
  }

  /** All weights are non-negative. */
  predicate NonNegativeWeights(weights: seq<(string, real)>)
  {
    forall i :: 0 <= i < |weights| ==> weights[i].1 >= 0.0
  }

  /** With non-negative weights the weighted score lies between 0 and the total weight. */
  lemma {:induction false} TotalsBounds(p: Product, weights: seq<(string, real)>,
                                        common: Dict<string, seq<string>>)
    requires NonEmptyLists(common) && NonNegativeWeights(weights)
    ensures 0.0 <= Totals(p, weights, common).0 <= Totals(p, weights, common).1
  {
    if weights != [] {
      var n := |weights| - 1;
      assert NonNegativeWeights(weights[..n]) by {
        forall i | 0 <= i < n ensures weights[..n][i].1 >= 0.0 {
          assert weights[..n][i] == weights[i];
        }
      }
      TotalsBounds(p, weights[..n], common);
      var (f, w) := weights[n];
      if f in Keys(p.specs) {
        TimesBounds(ScoreOf(p, f, common), w);
      }
    }
  }

  /** A weighted feature the product lacks changes neither total. */
  lemma AbsentFeatureTotals(p: Product, weights: seq<(string, real)>, f: string, w: real,
                            common: Dict<string, seq<string>>)
    requires NonEmptyLists(common) && f !in Keys(p.specs)
    ensures Totals(p, weights + [(f, w)], common) == Totals(p, weights, common)
  {
    assert (weights + [(f, w)])[..|weights|] == weights;
  }

  /** Features missing from the product's specs contribute nothing to its CP value. */
  lemma AbsentFeatureIgnored(p: Product, weights: seq<(string, real)>, f: string, w: real,
                             common: Dict<string, seq<string>>)
    requires NonEmptyLists(common) && f !in Keys(p.specs)
    ensures CpValueOf(p, weights + [(f, w)], common) == CpValueOf(p, weights, common)
  {
    AbsentFeatureTotals(p, weights, f, w, common);
  }

  /** When the product has none of the weighted features, the total weight is 0 and the
      divisor 1 is used instead, so the CP value is 0. */
  lemma {:induction false} NoWeightedFeature(p: Product, weights: seq<(string, real)>,
                                             common: Dict<string, seq<string>>)
    requires NonEmptyLists(common)
    requires forall i :: 0 <= i < |weights| ==> weights[i].0 !in Keys(p.specs)
    ensures Totals(p, weights, common) == (0.0, 0.0)
    ensures CpValueOf(p, weights, common) == 0.0
  {
    if weights != [] {
      var n := |weights| - 1;
      assert forall i :: 0 <= i < n ==> weights[..n][i] == weights[i];
      NoWeightedFeature(p, weights[..n], common);
    }
  }

  /** A free or negatively priced product is worth 0; otherwise, with non-negative weights
      and rating, the CP value lies between 0 and (1000 / price) · (1 + rating / 5 · 0.2). */
  lemma CpValueBounds(p: Product, weights: seq<(string, real)>, common: Dict<string, seq<string>>)
    requires NonEmptyLists(common)
    ensures p.price <= 0.0 ==> CpValueOf(p, weights, common) == 0.0
    ensures p.price > 0.0 && NonNegativeWeights(weights) && p.rating >= 0.0 ==>
              0.0 <= CpValueOf(p, weights, common) <= Times(1000.0 / p.price, RatingBonus(p.rating))
  {
    if p.price > 0.0 && NonNegativeWeights(weights) && p.rating >= 0.0 {
      var (ws, tw) := Totals(p, weights, common);
      TotalsBounds(p, weights, common);
      var total := if tw == 0.0 then 1.0 else tw;
      var share := Over(ws, total);
      OverBounds(ws, total);
      var base := Over(share, p.price / 1000.0);
      assert 0.0 <= base <= 1000.0 / p.price by {
        BaseBound(share, p.price);
      }
      ScaleBound(base, 1000.0 / p.price, RatingBonus(p.rating));
    }
  }

  lemma BaseBound(share: real, price: real)
    requires 0.0 <= share <= 1.0 && price > 0.0
    ensures 0.0 <= Over(share, price / 1000.0) <= 1000.0 / price
  {
    assert Over(share, price / 1000.0) == share * (1000.0 / price);
  }

  lemma ScaleBound(a: real, bound: real, k: real)
    requires 0.0 <= a <= bound && k >= 0.0
    ensures 0.0 <= Times(a, k) <= Times(bound, k)
  {
  }

  // ------------------------------------------------- test scenario (test.py)

  const ProductA := Product("", "商品 A", 10000.0, [("CPU", "高效能"), ("RAM", "16GB")], [], 4.5)
  const ProductB := Product("", "商品 B", 15000.0, [("CPU", "標準"), ("RAM", "8GB")], [], 4.0)
  const TestWeights: seq<(string, real)> := [("CPU", 2.0), ("RAM", 3.0)]
  const TestCommon: Dict<string, seq<string>> := [("CPU", ["高效能", "標準"]), ("RAM", ["16GB", "8GB"])]

  lemma TestNumbers()
    ensures ExtractNumeric(Str("高效能")) == 0.0
    ensures ExtractNumeric(Str("標準")) == 0.0
    ensures ExtractNumeric(Str("16GB")) == 16.0
    ensures ExtractNumeric(Str("8GB")) == 8.0
  {
    assert NoDigits("高效能") && NoDigits("標準");
    SixteenIsSixteen();
    assert DecimalValue("8") == 8 by {
      assert "8"[..0] == "";
    }
    assert "8" + "GB" == "8GB";
    DigitsThenUnit("8", "GB");
  }

  /** The maximum of a two-element list. */
  lemma MaxNumericOfTwo(a: string, b: string)
    ensures MaxNumeric([a, b]) == if ExtractNumeric(Str(b)) > ExtractNumeric(Str(a))
                                  then ExtractNumeric(Str(b)) else ExtractNumeric(Str(a))
  {
  }

  lemma TestIndex()
    ensures NonEmptyLists(TestCommon)
    ensures MaxNumeric(Get(TestCommon, "CPU")) == 0.0
    ensures MaxNumeric(Get(TestCommon, "RAM")) == 16.0
  {
    assert Keys(TestCommon) == {"CPU", "RAM"};
    assert Get(TestCommon, "CPU") == ["高效能", "標準"];
    assert Get(TestCommon, "RAM") == ["16GB", "8GB"];
    TestNumbers();
    MaxNumericOfTwo("高效能", "標準");
    MaxNumericOfTwo("16GB", "8GB");
  }

  /** Totals of any product that has both weighted features of the test weights. */
  lemma TestWeightsTotals(p: Product, common: Dict<string, seq<string>>)
    requires NonEmptyLists(common) && "CPU" in Keys(p.specs) && "RAM" in Keys(p.specs)
    ensures Totals(p, TestWeights, common)
            == (Times(ScoreOf(p, "CPU", common), 2.0) + Times(ScoreOf(p, "RAM", common), 3.0), 5.0)
  {
    assert TestWeights[..1] == [("CPU", 2.0)];
    assert [("CPU", 2.0)][..0] == [];
    assert Totals(p, [], common) == (0.0, 0.0);
    assert Totals(p, [("CPU", 2.0)], common) == (Times(ScoreOf(p, "CPU", common), 2.0), 2.0);
  }

  /** Product A: CPU scores 0.5 (zero maximum), RAM scores 16/16. */
  lemma ScoresA()
    ensures NonEmptyLists(TestCommon)
    ensures "CPU" in Keys(ProductA.specs) && "RAM" in Keys(ProductA.specs)
    ensures ScoreOf(ProductA, "CPU", TestCommon) == 0.5
    ensures ScoreOf(ProductA, "RAM", TestCommon) == 1.0
  {
    TestIndex();
    assert Get(ProductA.specs, "RAM") == "16GB";
    assert ExtractNumeric(Str("16GB")) == 16.0 by {
      TestNumbers();
    }
    FeatureScoreShare("16GB", 16.0);
  }

  /** Product B: CPU scores 0.5, RAM scores 8/16. */
  lemma ScoresB()
    ensures NonEmptyLists(TestCommon)
    ensures "CPU" in Keys(ProductB.specs) && "RAM" in Keys(ProductB.specs)
    ensures ScoreOf(ProductB, "CPU", TestCommon) == 0.5
    ensures ScoreOf(ProductB, "RAM", TestCommon) == 0.5
  {
    TestIndex();
    assert Get(ProductB.specs, "RAM") == "8GB";
    assert ExtractNumeric(Str("8GB")) == 8.0 by {
      TestNumbers();
    }
    FeatureScoreShare("8GB", 16.0);
  }

  /** The program's own self-test: product A (0.0944) is better value than product B
      (about 0.0387) under the weights CPU 2, RAM 3. */
  lemma TestScenario()
    ensures NonEmptyLists(TestCommon)
    ensures CpValueOf(ProductA, TestWeights, TestCommon) == 0.0944
    ensures CpValueOf(ProductB, TestWeights, TestCommon) < CpValueOf(ProductA, TestWeights, TestCommon)
  {
    ScoresA();
    ScoresB();
    TestWeightsTotals(ProductA, TestCommon);
    TestWeightsTotals(ProductB, TestCommon);
    assert BaseCp(4.0, 5.0, 10000.0) == 0.08;
    assert RatingBonus(4.5) == 1.18;
    assert BaseCp(2.5, 5.0, 15000.0) == 0.5 / 15.0;
    assert RatingBonus(4.0) == 1.16;
  }

  // ------------------------------------------------ calculate_all_cp_values

  /** Each product's CP value against the same weights and index. */
  function CpList(ps: seq<Product>, weights: seq<(string, real)>, common: Dict<string, seq<string>>)
    : (r: seq<real>)
    requires NonEmptyLists(common)
    ensures |r| == |ps| && forall i :: 0 <= i < |ps| ==> r[i] == CpValueOf(ps[i], weights, common)
  {
    seq(|ps|, i requires 0 <= i < |ps| => CpValueOf(ps[i], weights, common))
  }

  /** What `calculate_all_cp_values` returns: `{url: cp}`, the index built from `ps` itself. */
  function AllCpValuesOf(ps: seq<Product>, weights: seq<(string, real)>): Dict<string, real>
  {
    CommonFeaturesNonEmpty(ps);
    ZipDict(Urls(ps), CpList(ps, weights, CommonFeatures(ps)))
  }

  /** The result has exactly one key per product url; a url's value is the CP value of the
      last product carrying it, scored against the index of the whole list. */
  lemma AllCpValuesSpec(ps: seq<Product>, weights: seq<(string, real)>, i: int)
    requires 0 <= i < |ps| && forall j :: i < j < |ps| ==> ps[j].url != ps[i].url
    ensures Keys(AllCpValuesOf(ps, weights)) == set p | p in ps :: p.url
    ensures NonEmptyLists(CommonFeatures(ps))
    ensures ps[i].url in Keys(AllCpValuesOf(ps, weights))
    ensures Get(AllCpValuesOf(ps, weights), ps[i].url) == CpValueOf(ps[i], weights, CommonFeatures(ps))
  {
    CommonFeaturesNonEmpty(ps);
    var urls := Urls(ps);
    assert (set k | k in urls) == set p | p in ps :: p.url by {
      forall k | k in urls ensures k in set p | p in ps :: p.url {
        var j :| 0 <= j < |urls| && urls[j] == k;
        assert ps[j] in ps;
      }
      forall p | p in ps ensures p.url in urls {
        var j :| 0 <= j < |ps| && ps[j] == p;
        assert urls[j] == p.url;
      }
    }
    ZipDictGet(urls, CpList(ps, weights, CommonFeatures(ps)), i);
  }

  /** `calculate_all_cp_values`: builds the index, then fills `{url: cp}` in a loop. */
  method CalculateAllCpValues(ps: seq<Product>, weights: Dict<string, real>) returns (cps: Dict<string, real>)
    ensures cps == AllCpValuesOf(ps, weights)
  {
    var common := ExtractCommonFeatures(ps);
    CommonFeaturesNonEmpty(ps);
    cps := ScoreEach(ps, weights, common);
  }

  /** The loop over the products, storing each one's CP value under its url, that both
      `calculate_all_cp_values` and `get_budget_recommendations` run: every product's url
      is bound to its CP value, later products overwriting earlier ones. */
  method ScoreEach(ps: seq<Product>, weights: Dict<string, real>, common: Dict<string, seq<string>>)
    returns (cps: Dict<string, real>)
    requires NonEmptyLists(common)
    ensures cps == ZipDict(Urls(ps), CpList(ps, weights, common))
  {
    ghost var urls, values := Urls(ps), CpList(ps, weights, common);
    cps := [];
    for i := 0 to |ps|
      invariant cps == ZipDict(urls[..i], values[..i])
    {
      var cp := CalculateCpValue(ps[i], weights, common);
      ZipDictStep(urls, values, i);
      cps := Put(cps, ps[i].url, cp);
    }
    assert urls[..|ps|] == urls && values[..|ps|] == values;
  }

  // --------------------------------------------- get_recommendation_ranking

  datatype Recommendation = Recommendation(
    rank: nat, name: string, cpValue: real, price: real, rating: real,
    specs: Dict<string, string>, url: string)

  /** Each product paired with the CP value stored under its url, 0 when there is none. */
  function ScoredPairs(ps: seq<Product>, cpValues: Dict<string, real>): (r: seq<(Product, real)>)
    ensures |r| == |ps| && forall i :: 0 <= i < |ps| ==> r[i] == (ps[i], GetOr(cpValues, ps[i].url, 0.0))
  {
    seq(|ps|, i requires 0 <= i < |ps| => (ps[i], GetOr(cpValues, ps[i].url, 0.0)))
  }

  /** The pairs that make it into the ranking. */
  function TopPairs(ps: seq<Product>, cpValues: Dict<string, real>, topN: int): seq<(Product, real)>
  {
    Take(SortDesc(ScoredPairs(ps, cpValues)), topN)
  }

  function RecommendationOf(rank: nat, pair: (Product, real)): Recommendation
  {
    var (p, cp) := pair;
    Recommendation(rank, p.name, cp, p.price, p.rating, p.specs, p.url)
  }

  /** What `get_recommendation_ranking` returns. */
  function RankingOf(ps: seq<Product>, cpValues: Dict<string, real>, topN: int): (r: seq<Recommendation>)
    ensures |r| == |TopPairs(ps, cpValues, topN)|
    ensures forall i :: 0 <= i < |r| ==> r[i] == RecommendationOf(i + 1, TopPairs(ps, cpValues, topN)[i])
  {
    var top := TopPairs(ps, cpValues, topN);
    seq(|top|, i requires 0 <= i < |top| => RecommendationOf(i + 1, top[i]))
  }

  /** `get_recommendation_ranking`: sorts, slices, then appends one numbered entry per pair. */
  method RecommendationRanking(ps: seq<Product>, cpValues: Dict<string, real>, topN: int)
    returns (recs: seq<Recommendation>)
    ensures recs == RankingOf(ps, cpValues, topN)
  {
    var pairs := seq(|ps|, i requires 0 <= i < |ps| => (ps[i], GetOr(cpValues, ps[i].url, 0.0)));
    var top := Take(SortDesc(pairs), topN);
    recs := [];
    for k := 0 to |top|
      invariant |recs| == k
      invariant forall i :: 0 <= i < k ==> recs[i] == RecommendationOf(i + 1, top[i])
    {
      var (product, cp) := top[k];
      recs := recs + [Recommendation(k + 1, product.name, cp, product.price, product.rating,
                                     product.specs, product.url)];
    }
  }

  lemma {:induction false} WithValueAppend<T>(a: seq<(T, real)>, b: seq<(T, real)>, k: real)
    ensures WithValue(a + b, k) == WithValue(a, k) + WithValue(b, k)
  {
    if a != [] {
      assert (a + b)[1..] == a[1..] + b;
      WithValueAppend(a[1..], b, k);
    } else {
      assert a + b == b;
    }
  }

  /** The ranking holds `min(top_n, len(products))` entries for a non-negative `top_n`,
      numbered 1, 2, ... in non-increasing CP order; it is a prefix of the whole list sorted
      by CP, so nothing left out scores higher than anything kept. Products of equal CP keep
      their input order. */
  lemma RankingSpec(ps: seq<Product>, cpValues: Dict<string, real>, topN: int)
    ensures topN >= 0 ==> |RankingOf(ps, cpValues, topN)| == if topN <= |ps| then topN else |ps|
    ensures forall i :: 0 <= i < |RankingOf(ps, cpValues, topN)| ==>
              RankingOf(ps, cpValues, topN)[i].rank == i + 1
    ensures forall i, j :: 0 <= i < j < |RankingOf(ps, cpValues, topN)| ==>
              RankingOf(ps, cpValues, topN)[i].cpValue >= RankingOf(ps, cpValues, topN)[j].cpValue
    ensures |SortDesc(ScoredPairs(ps, cpValues))| == |ps|
    ensures forall i, j ::
              0 <= i < |RankingOf(ps, cpValues, topN)| <= j < |SortDesc(ScoredPairs(ps, cpValues))| ==>
              RankingOf(ps, cpValues, topN)[i].cpValue >= SortDesc(ScoredPairs(ps, cpValues))[j].1
    ensures multiset(SortDesc(ScoredPairs(ps, cpValues))) == multiset(ScoredPairs(ps, cpValues))
    ensures forall k :: WithValue(ScoredPairs(ps, cpValues), k)
              == WithValue(TopPairs(ps, cpValues, topN), k)
                 + WithValue(SortDesc(ScoredPairs(ps, cpValues))[|TopPairs(ps, cpValues, topN)|..], k)
  {
    var pairs := ScoredPairs(ps, cpValues);
    var sorted := SortDesc(pairs);
    SortDescSpec(pairs);
    var top := TopPairs(ps, cpValues, topN);
    assert top == sorted[..|top|];
    forall k ensures WithValue(pairs, k) == WithValue(top, k) + WithValue(sorted[|top|..], k) {
      assert sorted == top + sorted[|top|..];
      WithValueAppend(top, sorted[|top|..], k);
    }
  }

  // ---------------------------------------------- calculate_score_breakdown

  /** The breakdown entry of one weighted feature. */
  function BreakdownEntry(p: Product, entry: (string, real), common: Dict<string, seq<string>>): real
    requires NonEmptyLists(common)
  {
    var (f, w) := entry;
    if f in Keys(p.specs) then Times(ScoreOf(p, f, common), w) else 0.0
  }

  /** `calculate_score_breakdown`: one entry per weighted feature, in the weights' order. */
  method ScoreBreakdown(p: Product, weights: Dict<string, real>, common: Dict<string, seq<string>>)
    returns (breakdown: Dict<string, real>)
    requires NonEmptyLists(common)
    ensures |breakdown| == |weights|
    ensures forall i :: 0 <= i < |weights| ==>
              breakdown[i] == (weights[i].0, BreakdownEntry(p, weights[i], common))
  {
    breakdown := [];
    for i := 0 to |weights|
      invariant |breakdown| == i
      invariant forall j :: 0 <= j < i ==> breakdown[j] == (weights[j].0, BreakdownEntry(p, weights[j], common))
    {
      var (feature, weight) := weights[i];
      assert feature !in Keys(breakdown) by {
        KeysIndex(breakdown, feature);
      }
      if feature !in Keys(p.specs) {
        breakdown := Put(breakdown, feature, 0.0);
        continue;
      }
      var value := Get(p.specs, feature);
      var maxValue;
      if feature in Keys(common) {
        maxValue := MaxNumeric(Get(common, feature));
      } else {
        maxValue := ExtractNumeric(Str(value));
      }
      var score := FeatureScore(value, maxValue, true);
      breakdown := Put(breakdown, feature, Times(score, weight));
    }
  }

  /** An absent feature contributes 0 to the breakdown; a present one contributes its
      score times its weight, which for a non-negative weight lies in [0, weight]. */
  lemma BreakdownEntrySpec(p: Product, entry: (string, real), common: Dict<string, seq<string>>)
    requires NonEmptyLists(common)
    ensures entry.0 !in Keys(p.specs) ==> BreakdownEntry(p, entry, common) == 0.0
    ensures entry.1 >= 0.0 ==> 0.0 <= BreakdownEntry(p, entry, common) <= entry.1
  {
    if entry.0 in Keys(p.specs) && entry.1 >= 0.0 {
      TimesBounds(ScoreOf(p, entry.0, common), entry.1);
    }
  }

  /** The breakdown's entries sum to the weighted score of `calculate_cp_value`. */
  lemma {:induction false} BreakdownSumsToWeighted(p: Product, weights: seq<(string, real)>,
                                                    common: Dict<string, seq<string>>)
    requires NonEmptyLists(common)
    ensures Sum(seq(|weights|, i requires 0 <= i < |weights| => BreakdownEntry(p, weights[i], common)))
            == Totals(p, weights, common).0
  {
    if weights != [] {
      var n := |weights| - 1;
      BreakdownSumsToWeighted(p, weights[..n], common);
      var all := seq(|weights|, i requires 0 <= i < |weights| => BreakdownEntry(p, weights[i], common));
      var init := seq(n, i requires 0 <= i < n => BreakdownEntry(p, weights[..n][i], common));
      assert all == init + [BreakdownEntry(p, weights[n], common)];
      SumAppend(init, BreakdownEntry(p, weights[n], common));
    }
  }

  // --------------------------------------------- get_budget_recommendations

  /** The products whose price is at most the budget, in order. */
  function Affordable(ps: seq<Product>, budget: real): (r: seq<Product>)
    ensures forall p :: p in r <==> p in ps && p.price <= budget
    ensures |r| <= |ps|
  {
    if ps == [] then []
    else (if ps[0].price <= budget then [ps[0]] else []) + Affordable(ps[1..], budget)
  }

  /** What `get_budget_recommendations` returns, as `(product, cp)` pairs. */
  function BudgetOf(ps: seq<Product>, weights: seq<(string, real)>, budget: real): seq<(Product, real)>
  {
    var affordable := Affordable(ps, budget);
    if affordable == [] then [] else SortDesc(ScoredPairs(affordable, AllCpValuesOf(affordable, weights)))
  }

  /** `get_budget_recommendations`: filter, score the affordable products against their
      own index, sort by CP. */
  method BudgetRecommendations(ps: seq<Product>, weights: Dict<string, real>, budget: real)
    returns (r: seq<(Product, real)>)
    ensures r == BudgetOf(ps, weights, budget)
  {
    var affordable := Affordable(ps, budget);
    if affordable == [] {
      return [];
    }
    var common := ExtractCommonFeatures(affordable);
    CommonFeaturesNonEmpty(affordable);
    var cpValues := ScoreEach(affordable, weights, common);
    var pairs := seq(|affordable|, i requires 0 <= i < |affordable| =>
                       (affordable[i], GetOr(cpValues, affordable[i].url, 0.0)));
    r := SortDesc(pairs);
  }

  /** Every sorted pair is one of the scored pairs: a product of the list with its
      looked-up CP value. */
  lemma SortedScoresMembers(a: seq<Product>, cpValues: Dict<string, real>)
    ensures forall q :: q in SortDesc(ScoredPairs(a, cpValues)) ==>
              q.0 in a && q.1 == GetOr(cpValues, q.0.url, 0.0)
  {
    var pairs := ScoredPairs(a, cpValues);
    SortDescSpec(pairs);
    forall q | q in SortDesc(pairs) ensures q.0 in a && q.1 == GetOr(cpValues, q.0.url, 0.0) {
      assert q in multiset(SortDesc(pairs));
      assert q in multiset(pairs);
      var j :| 0 <= j < |pairs| && pairs[j] == q;
      assert a[j] in a;
    }
  }

  /** Sorting the scored pairs keeps each product once, orders them by CP descending with
      ties in input order, and pairs every product with its looked-up CP value. */
  lemma SortedScoresSpec(a: seq<Product>, cpValues: Dict<string, real>)
    ensures multiset(Firsts(SortDesc(ScoredPairs(a, cpValues)))) == multiset(a)
    ensures SortedDesc(SortDesc(ScoredPairs(a, cpValues)))
    ensures forall q :: q in SortDesc(ScoredPairs(a, cpValues)) ==>
              q.0 in a && q.1 == GetOr(cpValues, q.0.url, 0.0)
    ensures forall k ::
              WithValue(SortDesc(ScoredPairs(a, cpValues)), k) == WithValue(ScoredPairs(a, cpValues), k)
  {
    var pairs := ScoredPairs(a, cpValues);
    SortDescSpec(pairs);
    SortDescFirsts(pairs);
    assert Firsts(pairs) == a;
    SortedScoresMembers(a, cpValues);
  }

  /** Nothing is affordable exactly when the result is empty. Otherwise the result holds
      each affordable product once, sorted by CP descending (ties in input order), each with
      its CP value scored against the index of the affordable products alone. */
  lemma BudgetSpec(ps: seq<Product>, weights: seq<(string, real)>, budget: real)
    ensures BudgetOf(ps, weights, budget) == [] <==> forall p :: p in ps ==> p.price > budget
    ensures multiset(Firsts(BudgetOf(ps, weights, budget))) == multiset(Affordable(ps, budget))
    ensures SortedDesc(BudgetOf(ps, weights, budget))
    ensures forall q :: q in BudgetOf(ps, weights, budget) ==>
              q.0 in ps && q.0.price <= budget
              && q.1 == GetOr(AllCpValuesOf(Affordable(ps, budget), weights), q.0.url, 0.0)
    ensures forall k :: WithValue(BudgetOf(ps, weights, budget), k)
              == WithValue(if Affordable(ps, budget) == [] then []
                           else ScoredPairs(Affordable(ps, budget),
                                            AllCpValuesOf(Affordable(ps, budget), weights)), k)
  {
    var a := Affordable(ps, budget);
    if a == [] {
      assert forall p :: p in ps ==> p.price > budget;
    } else {
      assert a[0] in a;
      var cps := AllCpValuesOf(a, weights);
      SortedScoresSpec(a, cps);
      SortDescSpec(ScoredPairs(a, cps));
    }
  }

  // -------------------------------------------- get_price_performance_stats

  function Prices(ps: seq<Product>): (r: seq<real>)
    ensures |r| == |ps| && forall i :: 0 <= i < |ps| ==> r[i] == ps[i].price
  {
    seq(|ps|, i requires 0 <= i < |ps| => ps[i].price)
  }

  function LookedUpCps(ps: seq<Product>, cpValues: Dict<string, real>): (r: seq<real>)
    ensures |r| == |ps| && forall i :: 0 <= i < |ps| ==> r[i] == GetOr(cpValues, ps[i].url, 0.0)
  {
    seq(|ps|, i requires 0 <= i < |ps| => GetOr(cpValues, ps[i].url, 0.0))
  }

  /** The outcome of `get_price_performance_stats`. */
  datatype PriceStats =
    | NoProducts                          // `{}` for an empty product list
    | ZeroDivision                        // `sum(cp_vals) / len(cp_vals)` with no cp values raises
    | Summary(avgPrice: real, avgCp: real, minPrice: real, maxPrice: real,
              bestName: string, bestCp: real, bestPrice: real,
              expensiveName: string, expensivePrice: real,
              cheapestName: string, cheapestPrice: real)

  /** `get_price_performance_stats`. */
  function PricePerformanceStats(ps: seq<Product>, cpValues: Dict<string, real>): (r: PriceStats)
    ensures r.NoProducts? <==> ps == []
    ensures r.ZeroDivision? <==> ps != [] && cpValues == []
  {
    if ps == [] then NoProducts
    else if cpValues == [] then ZeroDivision
    else
      var prices := Prices(ps);
      var best := ps[FirstMax(LookedUpCps(ps, cpValues))];
      var expensive := ps[FirstMax(prices)];
      var cheapest := ps[FirstMin(prices)];
      Summary(
        Over(Sum(prices), |prices| as real),
        Over(Sum(ValueSeq(cpValues)), |cpValues| as real),
        prices[FirstMin(prices)], prices[FirstMax(prices)],
        best.name, GetOr(cpValues, best.url, 0.0), best.price,
        expensive.name, expensive.price,
        cheapest.name, cheapest.price)
  }

  lemma {:induction false} SumBounds(xs: seq<real>, lo: real, hi: real)
    requires forall i :: 0 <= i < |xs| ==> lo <= xs[i] <= hi
    ensures Times(|xs| as real, lo) <= Sum(xs) <= Times(|xs| as real, hi)
  {
    if xs != [] {
      assert forall i :: 0 <= i < |xs| - 1 ==> xs[1..][i] == xs[i + 1];
      SumBounds(xs[1..], lo, hi);
      assert Times(|xs| as real, lo) == lo + Times(|xs[1..]| as real, lo);
      assert Times(|xs| as real, hi) == hi + Times(|xs[1..]| as real, hi);
    }
  }

  lemma OverTimes(n: real, x: real)
    requires n > 0.0
    ensures Over(Times(n, x), n) == x
  {
  }

  lemma AverageBounds(xs: seq<real>, lo: real, hi: real)
    requires |xs| > 0
    requires forall i :: 0 <= i < |xs| ==> lo <= xs[i] <= hi
    ensures lo <= Over(Sum(xs), |xs| as real) <= hi
  {
    SumBounds(xs, lo, hi);
    var n := |xs| as real;
    OverTimes(n, lo);
    OverTimes(n, hi);
    OverMonotone(Times(n, lo), Sum(xs), n);
    OverMonotone(Sum(xs), Times(n, hi), n);
  }

  /** The price range holds the smallest and the largest price, and the average price
      lies inside it. */
  lemma PriceRangeSpec(ps: seq<Product>, cpValues: Dict<string, real>)
    requires ps != [] && cpValues != []
    ensures PricePerformanceStats(ps, cpValues).minPrice <= PricePerformanceStats(ps, cpValues).avgPrice
              <= PricePerformanceStats(ps, cpValues).maxPrice
    ensures forall i :: 0 <= i < |ps| ==>
              PricePerformanceStats(ps, cpValues).minPrice <= ps[i].price
              <= PricePerformanceStats(ps, cpValues).maxPrice
  {
    var prices := Prices(ps);
    AverageBounds(prices, prices[FirstMin(prices)], prices[FirstMax(prices)]);
  }

  /** The average CP value lies between the smallest and the largest value of the CP
      dictionary, the values `sum(cp_vals) / len(cp_vals)` averages. */
  lemma AverageCpSpec(ps: seq<Product>, cpValues: Dict<string, real>)
    requires ps != [] && cpValues != []
    ensures ValueSeq(cpValues)[FirstMin(ValueSeq(cpValues))] <= PricePerformanceStats(ps, cpValues).avgCp
              <= ValueSeq(cpValues)[FirstMax(ValueSeq(cpValues))]
  {
    var cps := ValueSeq(cpValues);
    AverageBounds(cps, cps[FirstMin(cps)], cps[FirstMax(cps)]);
  }

  /** The best-value product is the first one with the highest looked-up CP value. */
  lemma BestValueSpec(ps: seq<Product>, cpValues: Dict<string, real>)
    requires ps != [] && cpValues != []
    ensures exists i :: 0 <= i < |ps| && ps[i].name == PricePerformanceStats(ps, cpValues).bestName
              && ps[i].price == PricePerformanceStats(ps, cpValues).bestPrice
              && GetOr(cpValues, ps[i].url, 0.0) == PricePerformanceStats(ps, cpValues).bestCp
              && (forall j :: 0 <= j < |ps| ==>
                    GetOr(cpValues, ps[j].url, 0.0) <= GetOr(cpValues, ps[i].url, 0.0))
              && (forall j :: 0 <= j < i ==> GetOr(cpValues, ps[j].url, 0.0) < GetOr(cpValues, ps[i].url, 0.0))
  {
    var b := FirstMax(LookedUpCps(ps, cpValues));
    assert ps[b].name == PricePerformanceStats(ps, cpValues).bestName;
  }

  /** The most expensive product is the first with the highest price, the cheapest the
      first with the lowest. */
  lemma PriceExtremesSpec(ps: seq<Product>, cpValues: Dict<string, real>)
    requires ps != [] && cpValues != []
    ensures exists i :: 0 <= i < |ps| && ps[i].name == PricePerformanceStats(ps, cpValues).expensiveName
              && ps[i].price == PricePerformanceStats(ps, cpValues).expensivePrice
              && (forall j :: 0 <= j < |ps| ==> ps[j].price <= ps[i].price)
              && (forall j :: 0 <= j < i ==> ps[j].price < ps[i].price)
    ensures exists i :: 0 <= i < |ps| && ps[i].name == PricePerformanceStats(ps, cpValues).cheapestName
              && ps[i].price == PricePerformanceStats(ps, cpValues).cheapestPrice
              && (forall j :: 0 <= j < |ps| ==> ps[i].price <= ps[j].price)
              && (forall j :: 0 <= j < i ==> ps[i].price < ps[j].price)
  {
    MostExpensive(ps, cpValues);
    Cheapest(ps, cpValues);
  }

  lemma MostExpensive(ps: seq<Product>, cpValues: Dict<string, real>)
    requires ps != [] && cpValues != []
    ensures exists i :: 0 <= i < |ps| && ps[i].name == PricePerformanceStats(ps, cpValues).expensiveName
              && ps[i].price == PricePerformanceStats(ps, cpValues).expensivePrice
              && (forall j :: 0 <= j < |ps| ==> ps[j].price <= ps[i].price)
              && (forall j :: 0 <= j < i ==> ps[j].price < ps[i].price)
  {
    var prices := Prices(ps);
    var hi := FirstMax(prices);
    var st := PricePerformanceStats(ps, cpValues);
    assert st.expensiveName == ps[hi].name && st.expensivePrice == ps[hi].price;
    assert forall j :: 0 <= j < |ps| ==> ps[j].price == prices[j];
  }

  lemma Cheapest(ps: seq<Product>, cpValues: Dict<string, real>)
    requires ps != [] && cpValues != []
    ensures exists i :: 0 <= i < |ps| && ps[i].name == PricePerformanceStats(ps, cpValues).cheapestName
              && ps[i].price == PricePerformanceStats(ps, cpValues).cheapestPrice
              && (forall j :: 0 <= j < |ps| ==> ps[i].price <= ps[j].price)
              && (forall j :: 0 <= j < i ==> ps[i].price < ps[j].price)
  {
    var prices := Prices(ps);
    var lo := FirstMin(prices);
    var st := PricePerformanceStats(ps, cpValues);
    assert st.cheapestName == ps[lo].name && st.cheapestPrice == ps[lo].price;
    assert forall j :: 0 <= j < |ps| ==> ps[j].price == prices[j];
  }
}
