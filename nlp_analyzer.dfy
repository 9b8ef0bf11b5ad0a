/** Feature-importance estimation and the keyword heuristics of utils/nlp_analyzer.py.
    The external language model is not part of the model: what it answers (a reply or
    an error message) and what `json.loads` makes of the reply are inputs, and the random
    jitter of the local estimate is a per-feature input bounded by 0.15. */
module NlpAnalyzer {
  import opened Strings
  import opened Dicts
  import opened DataCleaner
  import opened StableSort

  // ------------------------------------------------- the local rules table

  /** Keys sharing one weight, in order. */
  function Run(w: real, keys: seq<string>): (r: seq<(string, real)>)
    ensures |r| == |keys| && forall i :: 0 <= i < |keys| ==> r[i] == (keys[i], w)
  {
    seq(|keys|, i requires 0 <= i < |keys| => (keys[i], w))
  }

  /** `FEATURE_IMPORTANCE_RULES` as the dictionary Python builds from its literal: every key
      once, at the position of its first occurrence. '顏色' is written twice (2.0, then
      1.0); the later value wins, so it sits among the middle-priority keys with 1.0. */
  const Rules: seq<(string, real)> :=
    Run(3.0, HighKeys) + Run(2.5, MidKeys) + Run(1.0, ColorKeys) + Run(2.0, ConnectionKeys)
    + Run(2.5, SoundQualityKeys) + Run(2.0, SpeakerSealKeys) + Run(1.5, LowKeys) + Run(1.0, PriceKeys)

  /** The runs of keys of equal weight, in the order of the table. */
  const HighKeys: seq<string> := ["降噪", "主動降噪", "續航", "續航時間", "電池", "電池容量", "cpu", "CPU",
                                  "處理器", "處理器性能", "ram", "RAM", "記憶體", "運行記憶體", "性能", "計算能力"]
  const MidKeys: seq<string> := ["品牌", "品牌信譽", "類型", "產品類型", "螢幕", "螢幕尺寸", "解析度", "resolution",
                                 "設計", "外觀"]
  const ColorKeys: seq<string> := ["顏色"]
  const ConnectionKeys: seq<string> := ["連接", "連接方式", "藍牙", "Bluetooth"]
  const SoundQualityKeys: seq<string> := ["音質"]
  const SpeakerSealKeys: seq<string> := ["聲音", "喇叭", "防水", "防塵", "防水等級"]
  const LowKeys: seq<string> := ["型號", "型號代碼", "保固", "保修", "售後", "重量", "尺寸", "厚度", "材質", "材料"]
  const PriceKeys: seq<string> := ["價格", "price", "配色"]

  /** Every weight of a table lies in [1, 3]. */
  predicate WeightsInRange(rules: seq<(string, real)>)
  {
    forall i :: 0 <= i < |rules| ==> 1.0 <= rules[i].1 <= 3.0
  }

  lemma RunInRange(w: real, keys: seq<string>)
    requires 1.0 <= w <= 3.0
    ensures WeightsInRange(Run(w, keys))
  {
  }

  lemma AppendInRange(a: seq<(string, real)>, b: seq<(string, real)>)
    requires WeightsInRange(a) && WeightsInRange(b)
    ensures WeightsInRange(a + b)
  {
    forall i | 0 <= i < |a + b| ensures 1.0 <= (a + b)[i].1 <= 3.0 {
      if i >= |a| {
        assert (a + b)[i] == b[i - |a|];
      }
    }
  }

  /** All rule weights lie in [1, 3]. */
  lemma RulesInRange()
    ensures WeightsInRange(Rules)
  {
    var r1, r2, r3, r4 := Run(3.0, HighKeys), Run(2.5, MidKeys), Run(1.0, ColorKeys), Run(2.0, ConnectionKeys);
    var r5, r6 := Run(2.5, SoundQualityKeys), Run(2.0, SpeakerSealKeys);
    var r7, r8 := Run(1.5, LowKeys), Run(1.0, PriceKeys);
    assert WeightsInRange(r1) && WeightsInRange(r2) && WeightsInRange(r3) && WeightsInRange(r4);
    assert WeightsInRange(r5) && WeightsInRange(r6) && WeightsInRange(r7) && WeightsInRange(r8);
    AppendInRange(r1, r2);
    AppendInRange(r1 + r2, r3);
    AppendInRange(r1 + r2 + r3, r4);
    AppendInRange(r1 + r2 + r3 + r4, r5);
    AppendInRange(r1 + r2 + r3 + r4 + r5, r6);
    AppendInRange(r1 + r2 + r3 + r4 + r5 + r6, r7);
    AppendInRange(r1 + r2 + r3 + r4 + r5 + r6 + r7, r8);
  }

  // ---------------------------------------------- _analyze_feature_locally

  /** The weight of the first rule whose lower-cased key equals `fl`, if any. */
  function ExactWeight(rules: seq<(string, real)>, fl: string): (r: Option<real>)
    ensures r.Some? <==> exists i :: 0 <= i < |rules| && Lower(rules[i].0) == fl
    ensures r.Some? ==> exists i :: (0 <= i < |rules| && Lower(rules[i].0) == fl && r.value == rules[i].1
                                     && forall j :: 0 <= j < i ==> Lower(rules[j].0) != fl)
  {
    if rules == [] then None
    else if Lower(rules[0].0) == fl then Some(rules[0].1)
    else
      var r := ExactWeight(rules[1..], fl);
      assert forall i :: 0 <= i < |rules| - 1 ==> rules[1..][i] == rules[i + 1];
      r
  }

  /** A rule key and the lower-cased feature overlap: one contains the other. */
  predicate Overlaps(key: string, fl: string)
  {
    Contains(fl, Lower(key)) || Contains(Lower(key), fl)
  }

  /** `best_match` after the partial-match loop over `rules`. */
  function BestMatch(rules: seq<(string, real)>, fl: string): (r: real)
    ensures r >= 1.0
    ensures forall i :: 0 <= i < |rules| && Overlaps(rules[i].0, fl) ==> rules[i].1 <= r
    ensures r == 1.0 || exists i :: 0 <= i < |rules| && Overlaps(rules[i].0, fl) && r == rules[i].1
  {
    if rules == [] then 1.0
    else
      var n := |rules| - 1;
      var b := BestMatch(rules[..n], fl);
      assert forall i :: 0 <= i < n ==> rules[..n][i] == rules[i];
      if Overlaps(rules[n].0, fl) && rules[n].1 > b then rules[n].1 else b
  }

  /** `count / n`. */
  function Ratio(count: nat, n: nat): real
    requires n > 0
  {
    count as real / n as real
  }

  lemma RatioCompare(count: nat, n: nat, t: real)
    requires n > 0
    ensures Ratio(count, n) >= t <==> count as real >= t * n as real
  {
  }

  /** The frequency adjustment: +0.3 (capped at 3.0) for a feature in at least 80% of the
      products, -0.3 (floored at 1.0) for one in fewer than half, nothing otherwise. */
  function Adjusted(best: real, count: nat, n: nat): real
  {
    if count > 0 && n > 0 then
      if Ratio(count, n) >= 0.8 then (if best + 0.3 < 3.0 then best + 0.3 else 3.0)
      else if Ratio(count, n) < 0.5 then (if best - 0.3 > 1.0 then best - 0.3 else 1.0)
      else best
    else best
  }

  /** `_analyze_feature_locally(feature, products)` with `jitter` standing for
      `random.uniform(-0.15, 0.15)`, before the final `round(·, 2)`. */
  function LocalWeight(feature: string, ps: seq<Product>, jitter: real): real
  {
    var fl := Lower(feature);
    match ExactWeight(Rules, fl)
    case Some(w) => w
    case None => Adjusted(BestMatch(Rules, fl), CountHaving(ps, feature), |ps|) + jitter
  }

  /** The adjustment keeps a weight of [1, 3] inside [1, 3]. */
  lemma AdjustedInRange(best: real, count: nat, n: nat)
    requires 1.0 <= best <= 3.0
    ensures 1.0 <= Adjusted(best, count, n) <= 3.0
  {
  }

  /** A feature equal (ignoring ASCII case) to a rule key gets the first such rule's weight
      unchanged: no frequency adjustment and no jitter. Any other feature starts from the
      largest weight among overlapping keys (at least 1.0), is adjusted by frequency into
      [1, 3], and then jittered, so with |jitter| <= 0.15 it lands in [0.85, 3.15]; the
      result is not clamped back into [1, 3]. */
  lemma LocalWeightSpec(feature: string, ps: seq<Product>, jitter: real)
    ensures ExactWeight(Rules, Lower(feature)).Some? ==>
              LocalWeight(feature, ps, jitter) == ExactWeight(Rules, Lower(feature)).value
    ensures ExactWeight(Rules, Lower(feature)).None? ==>
              LocalWeight(feature, ps, jitter)
              == Adjusted(BestMatch(Rules, Lower(feature)), CountHaving(ps, feature), |ps|) + jitter
              && 1.0 <= BestMatch(Rules, Lower(feature)) <= 3.0
    ensures -0.15 <= jitter <= 0.15 ==> 0.85 <= LocalWeight(feature, ps, jitter) <= 3.15
  {
    RulesInRange();
    var fl := Lower(feature);
    var b := BestMatch(Rules, fl);
    assert b <= 3.0;
    AdjustedInRange(b, CountHaving(ps, feature), |ps|);
  }

  /** The frequency thresholds in terms of counts: at least 80% of the products, or fewer
      than half of them. */
  lemma AdjustedThresholds(best: real, count: nat, n: nat)
    requires 0 < count <= n && 1.0 <= best <= 3.0
    ensures 5 * count >= 4 * n ==> Adjusted(best, count, n) == (if best + 0.3 < 3.0 then best + 0.3 else 3.0)
    ensures 2 * count < n ==> Adjusted(best, count, n) == (if best - 0.3 > 1.0 then best - 0.3 else 1.0)
    ensures 5 * count < 4 * n && 2 * count >= n ==> Adjusted(best, count, n) == best
  {
    RatioCompare(count, n, 0.8);
    RatioCompare(count, n, 0.5);
  }

  /** The first exact match of a concatenation. */
  lemma {:induction false} ExactWeightAppend(a: seq<(string, real)>, b: seq<(string, real)>, fl: string)
    ensures ExactWeight(a + b, fl)
            == if ExactWeight(a, fl).Some? then ExactWeight(a, fl) else ExactWeight(b, fl)
  {
    if a == [] {
      assert a + b == b;
    } else {
      assert (a + b)[1..] == a[1..] + b;
      ExactWeightAppend(a[1..], b, fl);
    }
  }

  /** Lower-casing only changes ASCII capitals, so a string without ASCII letters is the
      lower case of itself alone. */
  lemma LowerOnlyItself(k: string, s: string)
    requires forall i :: 0 <= i < |s| ==> !IsAsciiLetter(s[i])
    ensures Lower(k) == s ==> k == s
  {
    if Lower(k) == s {
      forall i | 0 <= i < |k| ensures k[i] == s[i] {
        assert LowerChar(k[i]) == s[i];
      }
    }
  }

  /** No key of a run lower-cases to `s` when `s` has no ASCII letter and is not a key. */
  lemma RunLacks(w: real, keys: seq<string>, s: string)
    requires forall i :: 0 <= i < |s| ==> !IsAsciiLetter(s[i])
    requires s !in keys
    ensures ExactWeight(Run(w, keys), s) == None
  {
    forall i | 0 <= i < |keys| ensures Lower(Run(w, keys)[i].0) != s {
      LowerOnlyItself(keys[i], s);
    }
  }

  /** '顏色' is ruled by its second entry: weight 1.0, returned as is. */
  lemma ColorWeight(ps: seq<Product>, jitter: real)
    ensures LocalWeight("顏色", ps, jitter) == 1.0
  {
    assert Lower("顏色") == "顏色";
    ColorExact();
  }

  /** The exact-match scan meets '顏色' first in its run of weight 1.0. */
  lemma ColorExact()
    ensures ExactWeight(Rules, "顏色") == Some(1.0)
  {
    var c := "顏色";
    assert forall i :: 0 <= i < |c| ==> !IsAsciiLetter(c[i]);
    var r1, r2, r3, r4 := Run(3.0, HighKeys), Run(2.5, MidKeys), Run(1.0, ColorKeys), Run(2.0, ConnectionKeys);
    var r5, r6 := Run(2.5, SoundQualityKeys), Run(2.0, SpeakerSealKeys);
    var r7, r8 := Run(1.5, LowKeys), Run(1.0, PriceKeys);
    RunLacks(3.0, HighKeys, c);
    RunLacks(2.5, MidKeys, c);
    assert ExactWeight(r3, c) == Some(1.0);
    ThirdRunDecides(r1, r2, r3, r4, r5, r6, r7, r8, c);
  }

  /** When the first two runs miss and the third hits, the later runs do not matter. */
  lemma ThirdRunDecides(r1: seq<(string, real)>, r2: seq<(string, real)>, r3: seq<(string, real)>,
                        r4: seq<(string, real)>, r5: seq<(string, real)>, r6: seq<(string, real)>,
                        r7: seq<(string, real)>, r8: seq<(string, real)>, fl: string)
    requires ExactWeight(r1, fl) == None && ExactWeight(r2, fl) == None && ExactWeight(r3, fl).Some?
    ensures ExactWeight(r1 + r2 + r3 + r4 + r5 + r6 + r7 + r8, fl) == ExactWeight(r3, fl)
  {
    ExactWeightAppend(r1, r2, fl);
    ExactWeightAppend(r1 + r2, r3, fl);
    ExactWeightAppend(r1 + r2 + r3, r4, fl);
    ExactWeightAppend(r1 + r2 + r3 + r4, r5, fl);
    ExactWeightAppend(r1 + r2 + r3 + r4 + r5, r6, fl);
    ExactWeightAppend(r1 + r2 + r3 + r4 + r5 + r6, r7, fl);
    ExactWeightAppend(r1 + r2 + r3 + r4 + r5 + r6 + r7, r8, fl);
  }

  /** `_analyze_feature_locally`: the exact-match loop with its early return, the
      partial-match loop updating `best_match`, then the adjustment and the jitter. */
  method AnalyzeFeatureLocally(feature: string, ps: seq<Product>, jitter: real) returns (w: real)
    ensures w == LocalWeight(feature, ps, jitter)
  {
    var fl := Lower(feature);
    var exact := ExactScan(Rules, fl);
    if exact.Some? {
      return exact.value;
    }
    var best := PartialScan(Rules, fl);
    var count := CountHaving(ps, feature);
    if count > 0 && |ps| > 0 {
      var ratio := Ratio(count, |ps|);
      if ratio >= 0.8 {
        best := if 3.0 <= best + 0.3 then 3.0 else best + 0.3;
      } else if ratio < 0.5 {
        best := if 1.0 >= best - 0.3 then 1.0 else best - 0.3;
      }
    }
    w := best + jitter;
  }

  /** The exact-match loop: the weight of the first rule whose lower-cased key is `fl`,
      returned as soon as it is found. */
  method ExactScan(rules: seq<(string, real)>, fl: string) returns (r: Option<real>)
    ensures r == ExactWeight(rules, fl)
  {
    for i := 0 to |rules|
      invariant ExactWeight(rules[..i], fl) == None
    {
      assert rules[..i] + [rules[i]] == rules[..i + 1];
      ExactWeightAppend(rules[..i], [rules[i]], fl);
      assert [rules[i]][1..] == [];
      var (keyword, weight) := rules[i];
      if Lower(keyword) == fl {
        assert rules[..i + 1] + rules[i + 1..] == rules;
        ExactWeightAppend(rules[..i + 1], rules[i + 1..], fl);
        return Some(weight);
      }
    }
    assert rules[..|rules|] == rules;
    return None;
  }

  /** The partial-match loop: `best_match` rises to the largest weight of an overlapping
      rule, starting from 1.0. */
  method PartialScan(rules: seq<(string, real)>, fl: string) returns (best: real)
    ensures best == BestMatch(rules, fl)
  {
    best := 1.0;
    for i := 0 to |rules|
      invariant best == BestMatch(rules[..i], fl)
    {
      assert rules[..i + 1][..i] == rules[..i];
      var (keyword, weight) := rules[i];
      if Contains(fl, Lower(keyword)) || Contains(Lower(keyword), fl) {
        best := if best >= weight then best else weight;
      }
    }
    assert rules[..|rules|] == rules;
  }

  // --------------------------------------------------------- feature lists

  /** The spec keys of all products, each once, in the order they first appear. Python takes
      `list(set(...))`, whose order is unspecified; every property below is independent of
      the order. */
  function FeatureList(ps: seq<Product>): (r: seq<string>)
    ensures Distinct(r)
  {
    if ps == [] then []
    else
      var n := |ps| - 1;
      AddNew(FeatureList(ps[..n]), KeySeq(ps[n].specs))
  }

  /** The loop of `analyze_feature_importance` that adds each product's spec keys to
      `features`, keeping the keys already there. */
  method CollectFeatures(ps: seq<Product>) returns (features: seq<string>)
    ensures features == FeatureList(ps)
  {
    features := [];
    for k := 0 to |ps|
      invariant features == FeatureList(ps[..k])
    {
      assert ps[..k + 1][..k] == ps[..k];
      features := AddNew(features, KeySeq(ps[k].specs));
    }
    assert ps[..|ps|] == ps;
  }

  /** The features listed are exactly those some product has. */
  lemma {:induction false} FeatureListSpec(ps: seq<Product>, f: string)
    ensures f in FeatureList(ps) <==> CountHaving(ps, f) > 0
  {
    if ps != [] {
      var n := |ps| - 1;
      FeatureListSpec(ps[..n], f);
      KeysIndex(ps[n].specs, f);
    }
  }

  /** 1.0 for each feature of a list. */
  function WithOnes(fs: seq<string>): (r: seq<(string, real)>)
    ensures |r| == |fs| && forall i :: 0 <= i < |fs| ==> r[i] == (fs[i], 1.0)
    ensures Distinct(fs) ==> DistinctKeys(r)
    ensures Keys(r) == set f | f in fs
  {
    if fs == [] then []
    else
      var n := |fs| - 1;
      var r := WithOnes(fs[..n]) + [(fs[n], 1.0)];
      assert fs == fs[..n] + [fs[n]];
      KeysOfSnoc(WithOnes(fs[..n]), (fs[n], 1.0));
      r
  }

  /** Appending a feature appends its 1.0 entry. */
  lemma WithOnesSnoc(fs: seq<string>, f: string)
    ensures WithOnes(fs + [f]) == WithOnes(fs) + [(f, 1.0)]
  {
    assert (fs + [f])[..|fs|] == fs;
  }

  /** `default_weights` of `analyze_products`: 1.0 for every feature, in list order. */
  function DefaultWeightsOf(ps: seq<Product>): Dict<string, real>
  {
    WithOnes(FeatureList(ps))
  }

  /** The inner loop for one product: each key not yet present gets 1.0. */
  method AddDefaults(d0: Dict<string, real>, ghost seen: seq<string>, keys: seq<string>)
    returns (d: Dict<string, real>)
    requires d0 == WithOnes(seen)
    ensures d == WithOnes(AddNew(seen, keys))
  {
    d := d0;
    ghost var now := seen;
    for j := 0 to |keys|
      invariant now == AddNew(seen, keys[..j])
      invariant d == WithOnes(now)
    {
      AddNewStep(seen, keys, j);
      var feature := keys[j];
      assert feature in Keys(d) <==> feature in now;
      if feature !in Keys(d) {
        WithOnesSnoc(now, feature);
        d := Put(d, feature, 1.0);
        now := now + [feature];
      }
    }
    assert keys[..|keys|] == keys;
  }

  /** The nested loops of `analyze_products` that fill `default_weights`. */
  method DefaultWeights(ps: seq<Product>) returns (d: Dict<string, real>)
    ensures d == DefaultWeightsOf(ps)
  {
    d := [];
    for k := 0 to |ps|
      invariant d == WithOnes(FeatureList(ps[..k]))
    {
      assert ps[..k + 1][..k] == ps[..k];
      d := AddDefaults(d, FeatureList(ps[..k]), KeySeq(ps[k].specs));
    }
    assert ps[..|ps|] == ps;
  }

  /** The default weights give 1.0 to every feature some product has, and to nothing else. */
  lemma DefaultWeightsSpec(ps: seq<Product>, f: string)
    ensures f in Keys(DefaultWeightsOf(ps)) <==> CountHaving(ps, f) > 0
    ensures f in Keys(DefaultWeightsOf(ps)) ==> Get(DefaultWeightsOf(ps), f) == 1.0
  {
    FeatureListSpec(ps, f);
    var fs := FeatureList(ps);
    if f in fs {
      var i :| 0 <= i < |fs| && fs[i] == f;
      GetIndex(WithOnes(fs), i);
    }
  }

  // ------------------------------------------------- the analyzer's state

  /** Which client interface `__init__` found. */
  datatype ApiVersion = NewApi | OldApi | NoApi

  /** What one request to the language model did: answered with a text (an empty text for
      an empty answer), or raised an error with a message. */
  datatype CallOutcome = Replied(text: string) | Raised(message: string)

  /** The error branch of `_call_gemini` recognises an exhausted quota. */
  predicate IsQuotaError(message: string)
  {
    Contains(message, "429") || Contains(Lower(message), "quota") || Contains(Lower(message), "exceeded")
  }

  /** The text `_call_gemini` returns. */
  function ReplyText(api: ApiVersion, outcome: CallOutcome): string
  {
    if api != NoApi && outcome.Replied? then outcome.text else ""
  }

  /** The feature weights `analyze_feature_importance` returns. `parse` stands for
      `json.loads` and gives None when the text is not a JSON object. */
  function ImportanceOf(localMode: bool, api: ApiVersion, ps: seq<Product>, outcome: CallOutcome,
                        parse: string -> Option<Dict<string, real>>, jitter: string -> real): Dict<string, real>
  {
    var fs := FeatureList(ps);
    var text := if localMode then "" else ReplyText(api, outcome);
    if text != [] && parse(FencedJson(text)).Some? then BackFill(parse(FencedJson(text)).value, fs, ps, jitter)
    else LocalWeights(fs, ps, jitter)
  }

  /** The local fallback loop: every listed feature gets its local weight. */
  function LocalWeights(fs: seq<string>, ps: seq<Product>, jitter: string -> real): Dict<string, real>
  {
    ZipDict(fs, seq(|fs|, i requires 0 <= i < |fs| => LocalWeight(fs[i], ps, jitter(fs[i]))))
  }

  /** The back-filling loop: listed features the answer lacks get their local weight. */
  function BackFill(w: Dict<string, real>, fs: seq<string>, ps: seq<Product>, jitter: string -> real)
    : (r: Dict<string, real>)
    ensures Keys(r) == Keys(w) + set f | f in fs
  {
    if fs == [] then w
    else
      var n := |fs| - 1;
      var b := BackFill(w, fs[..n], ps, jitter);
      assert fs == fs[..n] + [fs[n]];
      if fs[n] in Keys(b) then b else Put(b, fs[n], LocalWeight(fs[n], ps, jitter(fs[n])))
  }

  /** Back-filling keeps every value of the answer and gives each missing listed feature
      its local weight. */
  lemma {:induction false} BackFillSpec(w: Dict<string, real>, fs: seq<string>, ps: seq<Product>,
                                        jitter: string -> real, f: string)
    ensures f in Keys(w) ==> Get(BackFill(w, fs, ps, jitter), f) == Get(w, f)
    ensures f !in Keys(w) && f in fs ==> Get(BackFill(w, fs, ps, jitter), f) == LocalWeight(f, ps, jitter(f))
  {
    if fs != [] {
      var n := |fs| - 1;
      var b := BackFill(w, fs[..n], ps, jitter);
      BackFillSpec(w, fs[..n], ps, jitter, f);
      assert f in fs ==> f in fs[..n] || f == fs[n] by {
        assert fs == fs[..n] + [fs[n]];
      }
      var r := BackFill(w, fs, ps, jitter);
      if fs[n] in Keys(b) {
        assert r == b;
      } else {
        var x := LocalWeight(fs[n], ps, jitter(fs[n]));
        assert r == Put(b, fs[n], x);
        assert f == fs[n] ==> Get(r, f) == x;
        assert f != fs[n] && f in Keys(b) ==> Get(r, f) == Get(b, f);
      }
    }
  }

  /** The back-filling loop of `analyze_feature_importance`. */
  method BackFillWeights(w: Dict<string, real>, features: seq<string>, ps: seq<Product>, jitter: string -> real)
    returns (weights: Dict<string, real>)
    ensures weights == BackFill(w, features, ps, jitter)
  {
    weights := w;
    for i := 0 to |features|
      invariant weights == BackFill(w, features[..i], ps, jitter)
    {
      assert features[..i + 1][..i] == features[..i];
      var feature := features[i];
      if feature !in Keys(weights) {
        var x := AnalyzeFeatureLocally(feature, ps, jitter(feature));
        weights := Put(weights, feature, x);
      }
    }
    assert features[..|features|] == features;
  }

  /** The local loop of `analyze_feature_importance`. */
  method LocalImportance(features: seq<string>, ps: seq<Product>, jitter: string -> real)
    returns (weights: Dict<string, real>)
    ensures weights == LocalWeights(features, ps, jitter)
  {
    ghost var vals := seq(|features|, i requires 0 <= i < |features| =>
                            LocalWeight(features[i], ps, jitter(features[i])));
    weights := [];
    for i := 0 to |features|
      invariant weights == ZipDict(features[..i], vals[..i])
    {
      var w := AnalyzeFeatureLocally(features[i], ps, jitter(features[i]));
      ZipDictStep(features, vals, i);
      weights := Put(weights, features[i], w);
    }
    assert features[..|features|] == features && vals[..|vals|] == vals;
  }

  class GeminiAnalyzer {
    var useLocalMode: bool
    var apiVersion: ApiVersion

    /** `__init__`: a key from the environment overrides the configured one; without a key,
        or when configuring the client raises, the analyzer starts in local mode. */
    constructor (configuredKey: string, envKey: string, hasGenerativeModel: bool, configureRaises: bool)
      ensures var key := if envKey != "" then envKey else configuredKey;
              useLocalMode == (key == "" || configureRaises)
              && apiVersion == (if key == "" || configureRaises then NoApi
                                else if hasGenerativeModel then NewApi else OldApi)
    {
      var key := configuredKey;
      if envKey != "" {
        key := envKey;
      }
      useLocalMode := false;
      if key == "" {
        apiVersion := NoApi;
        useLocalMode := true;
      } else if configureRaises {
        apiVersion := NoApi;
        useLocalMode := true;
      } else if hasGenerativeModel {
        apiVersion := NewApi;
      } else {
        apiVersion := OldApi;
      }
    }

    /** `_call_gemini`: the reply text, or "" on error; an error mentioning 429, quota or
        exceeded switches to local mode for good. */
    method CallGemini(outcome: CallOutcome) returns (text: string)
      modifies this
      ensures text == ReplyText(apiVersion, outcome)
      ensures apiVersion == old(apiVersion)
      ensures useLocalMode == (old(useLocalMode) || QuotaHit(apiVersion, outcome))
    {
      if apiVersion == NoApi {
        return "";
      }
      match outcome
      case Replied(t) =>
        text := t;
      case Raised(message) =>
        var lowered := Lower(message);
        if Contains(message, "429") || Contains(lowered, "quota") || Contains(lowered, "exceeded") {
          useLocalMode := true;
        }
        text := "";
    }

    /** `analyze_feature_importance`: asks the model unless in local mode; a non-empty
        reply that parses is back-filled, anything else falls back to the local loop. */
    method AnalyzeFeatureImportance(ps: seq<Product>, outcome: CallOutcome,
                                    parse: string -> Option<Dict<string, real>>, jitter: string -> real)
      returns (weights: Dict<string, real>)
      modifies this
      ensures weights == ImportanceOf(old(useLocalMode), old(apiVersion), ps, outcome, parse, jitter)
      ensures apiVersion == old(apiVersion)
      ensures useLocalMode == (old(useLocalMode) || QuotaHit(apiVersion, outcome))
    {
      var features := CollectFeatures(ps);
      if !useLocalMode {
        var responseText := CallGemini(outcome);
        if responseText != [] {
          var parsed := parse(FencedJson(responseText));
          if parsed.Some? {
            weights := BackFillWeights(parsed.value, features, ps, jitter);
            return;
          }
        }
      }
      weights := LocalImportance(features, ps, jitter);
    }
  }

  /** A call on a configured client raised a quota error. */
  predicate QuotaHit(api: ApiVersion, outcome: CallOutcome)
  {
    api != NoApi && outcome.Raised? && IsQuotaError(outcome.message)
  }

  /** `use_local_mode` after calls that met `outcomes`, in order, each updating it as
      `_call_gemini` does. */
  function ModeAfter(localMode: bool, api: ApiVersion, outcomes: seq<CallOutcome>): bool
    decreases |outcomes|
  {
    if outcomes == [] then localMode
    else ModeAfter(localMode || QuotaHit(api, outcomes[0]), api, outcomes[1..])
  }

  /** Once in local mode, an analyzer stays there whatever later calls meet; it is in local
      mode after a run of calls exactly when it was before or one of them hit the quota. */
  lemma {:induction false} LocalModeIsSticky(localMode: bool, api: ApiVersion, outcomes: seq<CallOutcome>)
    ensures localMode ==> ModeAfter(localMode, api, outcomes)
    ensures ModeAfter(localMode, api, outcomes)
            <==> localMode || exists i :: 0 <= i < |outcomes| && QuotaHit(api, outcomes[i])
    decreases |outcomes|
  {
    if outcomes != [] {
      LocalModeIsSticky(localMode || QuotaHit(api, outcomes[0]), api, outcomes[1..]);
      if exists i :: 0 <= i < |outcomes[1..]| && QuotaHit(api, outcomes[1..][i]) {
        var i :| 0 <= i < |outcomes[1..]| && QuotaHit(api, outcomes[1..][i]);
        assert QuotaHit(api, outcomes[i + 1]);
      }
      if exists i :: 0 <= i < |outcomes| && QuotaHit(api, outcomes[i]) {
        var i :| 0 <= i < |outcomes| && QuotaHit(api, outcomes[i]);
        if i > 0 {
          assert QuotaHit(api, outcomes[1..][i - 1]);
        }
      }
    }
  }

  /** In local mode the model is not asked: the result is the same whatever it would answer. */
  lemma LocalModeIgnoresReply(api: ApiVersion, ps: seq<Product>, o1: CallOutcome, o2: CallOutcome,
                              parse: string -> Option<Dict<string, real>>, jitter: string -> real)
    ensures ImportanceOf(true, api, ps, o1, parse, jitter) == ImportanceOf(true, api, ps, o2, parse, jitter)
  {
  }

  /** In local mode, or when the reply is empty or does not parse, the result is the local
      estimate of exactly the features some product has. */
  lemma LocalImportanceSpec(localMode: bool, api: ApiVersion, ps: seq<Product>, outcome: CallOutcome,
                            parse: string -> Option<Dict<string, real>>, jitter: string -> real, f: string)
    requires localMode || ReplyText(api, outcome) == [] || parse(FencedJson(ReplyText(api, outcome))).None?
    ensures f in Keys(ImportanceOf(localMode, api, ps, outcome, parse, jitter)) <==> CountHaving(ps, f) > 0
    ensures f in Keys(ImportanceOf(localMode, api, ps, outcome, parse, jitter)) ==>
              Get(ImportanceOf(localMode, api, ps, outcome, parse, jitter), f) == LocalWeight(f, ps, jitter(f))
  {
    var fs := FeatureList(ps);
    FeatureListSpec(ps, f);
    var vals := seq(|fs|, i requires 0 <= i < |fs| => LocalWeight(fs[i], ps, jitter(fs[i])));
    if f in fs {
      var i :| 0 <= i < |fs| && fs[i] == f;
      assert IsLastIndex(fs, f, i);
      ZipDictGet(fs, vals, i);
    }
  }

  /** When the model answers with a parsable object, the result holds the answer's keys and
      values, plus every feature some product has, back-filled with its local weight. */
  lemma ExternalImportanceSpec(api: ApiVersion, ps: seq<Product>, outcome: CallOutcome,
                               parse: string -> Option<Dict<string, real>>, jitter: string -> real, f: string)
    requires ReplyText(api, outcome) != [] && parse(FencedJson(ReplyText(api, outcome))).Some?
    ensures var w := parse(FencedJson(ReplyText(api, outcome))).value;
            var r := ImportanceOf(false, api, ps, outcome, parse, jitter);
            (f in Keys(r) <==> f in Keys(w) || CountHaving(ps, f) > 0)
            && (f in Keys(w) ==> Get(r, f) == Get(w, f))
            && (f !in Keys(w) && CountHaving(ps, f) > 0 ==> Get(r, f) == LocalWeight(f, ps, jitter(f)))
  {
    FeatureListSpec(ps, f);
    BackFillSpec(parse(FencedJson(ReplyText(api, outcome))).value, FeatureList(ps), ps, jitter, f);
  }

  // ------------------------------------------------------ fenced JSON text

  /** The JSON text inside a reply: between the first "```json" (or, failing that, the
      first "```") and the next "```", stripped; the whole reply when it has no fence. */
  function FencedJson(text: string): string
  {
    if Contains(text, "```json") then Strip(Before(After(text, "```json"), "```"))
    else if Contains(text, "```") then Strip(Before(After(text, "```"), "```"))
    else text
  }

  /** The text before the first occurrence of `p` does not contain `p`. */
  lemma BeforeLacks(s: string, p: string)
    requires p != []
    ensures !Contains(Before(s, p), p)
  {
    var b := Before(s, p);
    if Contains(b, p) {
      var j := ContainsWitness(b, p);
      assert Find(s, p) != -1;
      assert s[j..j + |p|] == b[j..j + |p|];
      FindIsFirst(s, p, j);
      assert false;
    }
  }

  /** A slice of a string lacking `p` lacks `p`. */
  lemma SliceLacks(s: string, i: nat, j: nat, p: string)
    requires i <= j <= |s| && !Contains(s, p)
    ensures !Contains(s[i..j], p)
  {
    if Contains(s[i..j], p) {
      var t := s[i..j];
      var k := ContainsWitness(t, p);
      forall m | 0 <= m < |p| ensures s[i + k..i + k + |p|][m] == p[m] {
        assert t[k..k + |p|][m] == p[m];
        assert t[k + m] == s[i + k + m];
      }
      ContainsAt(s, p, i + k);
    }
  }

  /** The stripped text is a slice of its argument. */
  lemma StripSlice(s: string) returns (i: nat, j: nat)
    ensures i <= j <= |s| && Strip(s) == s[i..j]
  {
    var l := LStrip(s);
    i := |s| - |l|;
    j := i + |RStrip(l)|;
    assert s[i..j] == l[..|RStrip(l)|];
  }

  /** A fenced reply yields a text holding no fence; an unfenced reply is taken whole. */
  lemma FencedJsonSpec(text: string)
    ensures Contains(text, "```") ==> !Contains(FencedJson(text), "```")
    ensures !Contains(text, "```") ==> FencedJson(text) == text
  {
    var fence := "```";
    if Contains(text, "```json") {
      ContainsAt("```json", fence, 0);
      ContainsTrans(text, "```json", fence);
      var b := Before(After(text, "```json"), fence);
      BeforeLacks(After(text, "```json"), fence);
      var i, j := StripSlice(b);
      SliceLacks(b, i, j, fence);
    } else if Contains(text, fence) {
      var b := Before(After(text, fence), fence);
      BeforeLacks(After(text, fence), fence);
      var i, j := StripSlice(b);
      SliceLacks(b, i, j, fence);
    }
  }

  // ------------------------------------------------ analyze_review_sentiment

  const PositiveKeywords: seq<string> := ["好", "棒", "推薦", "滿意", "優", "完美", "很好", "讚", "愛", "推"]
  const NegativeKeywords: seq<string> := ["差", "爛", "破", "壞", "不好", "後悔", "糟糕", "浪費", "假"]

  /** How many of `keywords` occur in `review`. */
  function HitsIn(review: string, keywords: seq<string>): (n: nat)
    ensures n <= |keywords|
  {
    if keywords == [] then 0
    else (if Contains(review, keywords[0]) then 1 else 0) + HitsIn(review, keywords[1..])
  }

  /** The number of (review, keyword) pairs in which the review contains the keyword. */
  function Hits(reviews: seq<string>, keywords: seq<string>): nat
  {
    if reviews == [] then 0 else HitsIn(reviews[0], keywords) + Hits(reviews[1..], keywords)
  }

  /** `a / b` on counts. */
  function Share(a: nat, b: nat): real
    requires b > 0
  {
    a as real / b as real
  }

  lemma ShareBounds(a: nat, b: nat)
    requires 0 < b && a <= b
    ensures 0.0 <= Share(a, b) <= 1.0
  {
  }

  datatype Label = Positive | Negative | Neutral

  datatype SentimentResult =
    | NoReviews                                          // `{'sentiment': 'neutral', 'score': 0.5, ...}`
    | Sentiment(verdict: Label, score: real, reviewCount: nat)

  /** The verdict for `pos` positive and `neg` negative hits over `count` reviews. */
  function Verdict(pos: nat, neg: nat, count: nat): SentimentResult
  {
    if pos + neg == 0 then Sentiment(Neutral, 0.5, count)
    else
      var score := Share(pos, pos + neg);
      Sentiment(if score > 0.6 then Positive else if score < 0.4 then Negative else Neutral, score, count)
  }

  /** `analyze_review_sentiment`, before rounding the score. */
  function ReviewSentiment(reviews: seq<string>): (r: SentimentResult)
    ensures r.NoReviews? <==> reviews == []
  {
    if reviews == [] then NoReviews
    else Verdict(Hits(reviews, PositiveKeywords), Hits(reviews, NegativeKeywords), |reviews|)
  }

  /** With no keyword hit the verdict is neutral at 0.5; otherwise the score is the share of
      positive hits among all hits, in [0, 1], and the verdict is positive exactly above 0.6,
      negative exactly below 0.4 and neutral in between. */
  lemma VerdictSpec(pos: nat, neg: nat, count: nat)
    ensures var r := Verdict(pos, neg, count);
            r.Sentiment? && r.reviewCount == count && 0.0 <= r.score <= 1.0
            && (pos + neg == 0 ==> r.verdict == Neutral && r.score == 0.5)
            && (pos + neg > 0 ==> r.score == Share(pos, pos + neg))
            && (r.verdict == Positive <==> r.score > 0.6)
            && (r.verdict == Negative <==> r.score < 0.4)
  {
    if pos + neg > 0 {
      ShareBounds(pos, pos + neg);
    }
  }

  /** The reviews' verdict is that of their positive and negative keyword hits. */
  lemma ReviewSentimentSpec(reviews: seq<string>)
    requires reviews != []
    ensures ReviewSentiment(reviews)
            == Verdict(Hits(reviews, PositiveKeywords), Hits(reviews, NegativeKeywords), |reviews|)
    ensures ReviewSentiment(reviews).Sentiment? && 0.0 <= ReviewSentiment(reviews).score <= 1.0
  {
    VerdictSpec(Hits(reviews, PositiveKeywords), Hits(reviews, NegativeKeywords), |reviews|);
  }

  // ------------------------------------------------- analyze_pros_and_cons

  /** One `'key': 'value'` item of `str(specs)`. */
  function ReprItem(item: (string, string)): string
  {
    "'" + item.0 + "': '" + item.1 + "'"
  }

  /** `str(specs)`: Python's text of a dictionary of strings. */
  function ReprText(specs: Dict<string, string>): string
  {
    "{" + Join(seq(|specs|, i requires 0 <= i < |specs| => ReprItem(specs[i])), ", ") + "}"
  }

  const AdvancedKeywords: seq<string> := ["高", "最新", "進階", "pro", "ultra"]

  /** Some keyword occurs in `text`. */
  predicate AnyIn(text: string, keywords: seq<string>)
  {
    exists i :: 0 <= i < |keywords| && Contains(text, keywords[i])
  }

  /** `specs.get(key)` is truthy: present with a non-empty value. */
  predicate Has(specs: Dict<string, string>, key: string)
  {
    GetOr(specs, key, "") != ""
  }

  /** The pros collected before truncation, in the order the checks run. */
  function PrePros(p: Product): seq<string>
  {
    (if AnyIn(Lower(ReprText(p.specs)), AdvancedKeywords) then ["配置先進"] else [])
    + (if p.rating >= 4.0 then ["用戶評價高"] else [])
    + (if Has(p.specs, "降噪") || Has(p.specs, "主動降噪") then ["降噪效果好"] else [])
    + (if Has(p.specs, "續航時間") || Has(p.specs, "電池") then ["續航能力強"] else [])
    + (if Has(p.specs, "品牌") then ["品牌信譽好 (" + Get(p.specs, "品牌") + ")"] else [])
  }

  datatype ProsCons = ProsCons(pros: seq<string>, cons: seq<string>, targetUsers: string, valueRating: real)

  /** The entry of one product: `pros[:3]` with '性能穩定' when nothing applies. */
  function ProsConsOf(p: Product): ProsCons
  {
    var pros := if PrePros(p) == [] then ["性能穩定"] else PrePros(p);
    ProsCons(Take(pros, 3), [], "一般消費者", p.rating)
  }

  /** What `analyze_pros_and_cons` returns: one entry per url, the last product with a url
      winning. */
  function ProsAndCons(ps: seq<Product>): Dict<string, ProsCons>
  {
    ZipDict(Urls(ps), MapSeq(ps, ProsConsOf))
  }

  /** `analyze_pros_and_cons`: the loop over the products, storing each one's entry under
      its url. */
  method AnalyzeProsAndCons(ps: seq<Product>) returns (result: Dict<string, ProsCons>)
    ensures result == ProsAndCons(ps)
  {
    result := StoreByUrl(ps, ProsConsOf);
  }

  /** A loop over the products that stores `entryOf(product)` under the product's url, later
      products overwriting earlier ones. */
  method StoreByUrl<V>(ps: seq<Product>, entryOf: Product -> V) returns (result: Dict<string, V>)
    ensures result == ZipDict(Urls(ps), MapSeq(ps, entryOf))
  {
    ghost var urls, entries := Urls(ps), MapSeq(ps, entryOf);
    result := [];
    for k := 0 to |ps|
      invariant result == ZipDict(urls[..k], entries[..k])
    {
      ZipDictStep(urls, entries, k);
      result := Put(result, ps[k].url, entryOf(ps[k]));
    }
    assert urls[..|ps|] == urls && entries[..|ps|] == entries;
  }

  /** Every product gets one to three pros and no cons; '性能穩定' stands alone exactly when
      no check applies; a rating of at least 4.0 always shows among the pros, and the brand
      pro is cut off when the four checks before it all apply. */
  lemma ProsConsSpec(p: Product)
    ensures 1 <= |ProsConsOf(p).pros| <= 3 && ProsConsOf(p).cons == []
    ensures ProsConsOf(p).pros == ["性能穩定"] <==> PrePros(p) == []
    ensures p.rating >= 4.0 ==> "用戶評價高" in ProsConsOf(p).pros
    ensures PrePros(p) == [] || ProsConsOf(p).pros == PrePros(p)[..|ProsConsOf(p).pros|]
  {
    var pre := PrePros(p);
    if p.rating >= 4.0 {
      var a := if AnyIn(Lower(ReprText(p.specs)), AdvancedKeywords) then ["配置先進"] else [];
      assert pre[|a|] == "用戶評價高";
    }
    if pre != [] {
      assert "性能穩定" != "配置先進" && "性能穩定" != "用戶評價高" && "性能穩定" != "降噪效果好"
        && "性能穩定" != "續航能力強";
      assert |"性能穩定"| == 4;
      assert pre[0] != "性能穩定" by {
        if pre[0] != "配置先進" && pre[0] != "用戶評價高" && pre[0] != "降噪效果好" && pre[0] != "續航能力強" {
          assert pre[0] == "品牌信譽好 (" + Get(p.specs, "品牌") + ")";
          assert pre[0][0] == '品';
        }
      }
    }
  }

  /** The analysis is keyed by url, and a url's entry comes from the last product with it. */
  lemma ProsAndConsSpec(ps: seq<Product>, i: int)
    requires 0 <= i < |ps| && forall j :: i < j < |ps| ==> ps[j].url != ps[i].url
    ensures ps[i].url in Keys(ProsAndCons(ps)) && Get(ProsAndCons(ps), ps[i].url) == ProsConsOf(ps[i])
  {
    ZipDictGet(Urls(ps), MapSeq(ps, ProsConsOf), i);
  }

  // -------------------------------------------- calculate_user_match_score

  /** One `"key": "value"` item of `json.dumps(specs, ensure_ascii=False)`. */
  function JsonItem(item: (string, string)): string
  {
    "\"" + item.0 + "\": \"" + item.1 + "\""
  }

  /** `json.dumps(specs, ensure_ascii=False)`. */
  function JsonText(specs: Dict<string, string>): string
  {
    "{" + Join(seq(|specs|, i requires 0 <= i < |specs| => JsonItem(specs[i])), ", ") + "}"
  }

  /** The requirement tokens longer than two characters found in the name or specs text. */
  function MatchCount(tokens: seq<string>, name: string, specsText: string): (k: nat)
    ensures k <= |tokens|
  {
    if tokens == [] then 0
    else
      var n := |tokens| - 1;
      var t := tokens[n];
      MatchCount(tokens[..n], name, specsText)
      + (if |t| > 2 && (Contains(name, t) || Contains(specsText, t)) then 1 else 0)
  }

  datatype Match = Match(score: int, matchingFactors: seq<string>, notMatchingFactors: seq<string>,
                         recommendation: string)

  /** The two shapes of `calculate_user_match_score`'s result: a flat 50.0 per url without a
      requirement, a scored entry per url with one. */
  datatype MatchScores = Flat(flat: Dict<string, real>) | Scored(scored: Dict<string, Match>)

  /** `min(100, 50 + 10 * k)` and its recommendation. */
  function MatchOf(k: nat): Match
  {
    var score := if 50 + k * 10 < 100 then 50 + k * 10 else 100;
    Match(score, ["規格匹配", "品質可靠"], [],
          if score > 70 then "推薦" else if score > 50 then "可考慮" else "謹慎評估")
  }

  /** The match entry of one product against the lower-cased requirement. */
  function ProductMatch(p: Product, requirementLower: string): Match
  {
    MatchOf(MatchCount(SplitWs(requirementLower), Lower(p.name), Lower(JsonText(p.specs))))
  }

  /** What `calculate_user_match_score` returns; a missing requirement is "". */
  function MatchScoresOf(ps: seq<Product>, requirement: string): MatchScores
  {
    if requirement == "" then Flat(ZipDict(Urls(ps), seq(|ps|, i => 50.0)))
    else
      Scored(ZipDict(Urls(ps), Matches(ps, Lower(requirement))))
  }

  /** The match entry of every product, in order. */
  function Matches(ps: seq<Product>, requirementLower: string): (r: seq<Match>)
    ensures |r| == |ps| && forall i :: 0 <= i < |ps| ==> r[i] == ProductMatch(ps[i], requirementLower)
  {
    seq(|ps|, i requires 0 <= i < |ps| => ProductMatch(ps[i], requirementLower))
  }

  /** The inner loop of `calculate_user_match_score`, incrementing `match_count`. */
  method CountMatches(tokens: seq<string>, name: string, specsText: string) returns (count: nat)
    ensures count == MatchCount(tokens, name, specsText)
  {
    count := 0;
    for j := 0 to |tokens|
      invariant count == MatchCount(tokens[..j], name, specsText)
    {
      assert tokens[..j + 1][..j] == tokens[..j];
      var keyword := tokens[j];
      if |keyword| > 2 {
        if Contains(name, keyword) || Contains(specsText, keyword) {
          count := count + 1;
        }
      }
    }
    assert tokens[..|tokens|] == tokens;
  }

  /** `calculate_user_match_score`: a loop over the products, counting matching tokens. */
  method UserMatchScores(ps: seq<Product>, requirement: string) returns (r: MatchScores)
    ensures r == MatchScoresOf(ps, requirement)
  {
    if requirement == "" {
      return Flat(ZipDict(Urls(ps), seq(|ps|, i => 50.0)));
    }
    var rl := Lower(requirement);
    var tokens := SplitWs(rl);
    var scores := MatchEach(ps, rl, tokens);
    r := Scored(scores);
  }

  /** The loop over the products of `calculate_user_match_score`: every url is bound to
      the match entry of the last product carrying it. */
  method MatchEach(ps: seq<Product>, rl: string, tokens: seq<string>) returns (scores: Dict<string, Match>)
    requires tokens == SplitWs(rl)
    ensures scores == ZipDict(Urls(ps), Matches(ps, rl))
  {
    ghost var urls, entries := Urls(ps), Matches(ps, rl);
    scores := [];
    for k := 0 to |ps|
      invariant scores == ZipDict(urls[..k], entries[..k])
    {
      var specsText := Lower(JsonText(ps[k].specs));
      var name := Lower(ps[k].name);
      var count := CountMatches(tokens, name, specsText);
      ZipDictStep(urls, entries, k);
      scores := Put(scores, ps[k].url, MatchOf(count));
    }
    assert urls[..|ps|] == urls && entries[..|ps|] == entries;
  }

  /** Each matching token adds 10 to a base of 50, up to 100; the product is recommended
      (推薦) from three matches on, worth considering (可考慮) with one or two, and to be
      judged carefully (謹慎評估) with none. */
  lemma MatchOfSpec(k: nat)
    ensures 50 <= MatchOf(k).score <= 100
    ensures k <= 5 ==> MatchOf(k).score == 50 + 10 * k
    ensures MatchOf(k).recommendation == "推薦" <==> k >= 3
    ensures MatchOf(k).recommendation == "可考慮" <==> 1 <= k <= 2
    ensures MatchOf(k).recommendation == "謹慎評估" <==> k == 0
  {
    assert "推薦" != "可考慮" && "推薦" != "謹慎評估" && "可考慮" != "謹慎評估";
  }

  /** Without a requirement every url scores 50.0; with one, a url's entry is that of the
      last product carrying it. */
  lemma MatchScoresSpec(ps: seq<Product>, requirement: string, i: int)
    requires 0 <= i < |ps| && forall j :: i < j < |ps| ==> ps[j].url != ps[i].url
    ensures requirement == "" ==>
              (MatchScoresOf(ps, requirement).Flat?
               && ps[i].url in Keys(MatchScoresOf(ps, requirement).flat)
               && Get(MatchScoresOf(ps, requirement).flat, ps[i].url) == 50.0)
    ensures requirement != "" ==>
              (MatchScoresOf(ps, requirement).Scored?
               && ps[i].url in Keys(MatchScoresOf(ps, requirement).scored)
               && Get(MatchScoresOf(ps, requirement).scored, ps[i].url)
                  == ProductMatch(ps[i], Lower(requirement)))
  {
    if requirement == "" {
      ZipDictGet(Urls(ps), seq(|ps|, i => 50.0), i);
    } else {
      var rl := Lower(requirement);
      ZipDictGet(Urls(ps), seq(|ps|, i requires 0 <= i < |ps| => ProductMatch(ps[i], rl)), i);
    }
  }

  // ------------------------------------------------ analyze_value_proposition

  datatype Position = Premium | MidRange | Budget
  datatype Fairness = Fair | SlightlyOverpriced | PossiblyOverpriced | UnknownFairness

  datatype ValueProp = ValueProp(sellingPoints: seq<string>, fairness: Fairness,
                                 advantages: seq<string>, position: Option<Position>)

  /** The price tier. */
  function PositionOf(price: real): Position
  {
    if price > 5000.0 then Premium else if price > 2000.0 then MidRange else Budget
  }

  /** The rating tier (the two top tiers both read 'fair'). */
  function FairnessOf(rating: real): Fairness
  {
    if rating >= 4.5 then Fair else if rating >= 4.0 then Fair
    else if rating >= 3.5 then SlightlyOverpriced else PossiblyOverpriced
  }

  function SellingPoints(position: Position): seq<string>
  {
    match position
    case Premium => ["高端配置", "卓越性能"]
    case MidRange => ["均衡配置", "性價比不錯"]
    case Budget => ["經濟實惠", "基本功能完整"]
  }

  function ValuePropOf(p: Product): ValueProp
  {
    var position := PositionOf(p.price);
    ValueProp(SellingPoints(position), FairnessOf(p.rating), ["品質穩定", "售後完善"], Some(position))
  }

  /** What `analyze_value_proposition` returns: one entry per url; the weights it is given
      are unused. */
  function ValuePropositions(ps: seq<Product>): Dict<string, ValueProp>
  {
    ZipDict(Urls(ps), MapSeq(ps, ValuePropOf))
  }

  /** `analyze_value_proposition`: the loop over the products, storing each one's
      proposition under its url. */
  method AnalyzeValueProposition(ps: seq<Product>) returns (propositions: Dict<string, ValueProp>)
    ensures propositions == ValuePropositions(ps)
  {
    propositions := StoreByUrl(ps, ValuePropOf);
  }

  /** A url's proposition comes from the last product with that url. */
  lemma ValuePropositionsSpec(ps: seq<Product>, i: int)
    requires 0 <= i < |ps| && forall j :: i < j < |ps| ==> ps[j].url != ps[i].url
    ensures ps[i].url in Keys(ValuePropositions(ps))
    ensures Get(ValuePropositions(ps), ps[i].url) == ValuePropOf(ps[i])
  {
    ZipDictGet(Urls(ps), MapSeq(ps, ValuePropOf), i);
  }

  /** The tiers: premium above 5000, mid-range above 2000, budget otherwise; 'fair' exactly
      from a rating of 4.0, slightly overpriced from 3.5, possibly overpriced below. A higher
      price never lands in a lower tier. */
  lemma ValuePropSpec(p: Product, q: Product)
    ensures ValuePropOf(p).position == Some(PositionOf(p.price))
    ensures ValuePropOf(p).fairness == Fair <==> p.rating >= 4.0
    ensures ValuePropOf(p).fairness == SlightlyOverpriced <==> 3.5 <= p.rating < 4.0
    ensures ValuePropOf(p).fairness == PossiblyOverpriced <==> p.rating < 3.5
    ensures PositionOf(p.price) == Premium <==> p.price > 5000.0
    ensures PositionOf(p.price) == Budget <==> p.price <= 2000.0
    ensures p.price <= q.price && PositionOf(p.price) == Premium ==> PositionOf(q.price) == Premium
    ensures p.price <= q.price && PositionOf(p.price) == MidRange ==> PositionOf(q.price) != Budget
  {
  }

  // ------------------------------------------------- generate_recommendation

  /** The first product with the given url, if there is one. */
  function FirstWithUrl(ps: seq<Product>, url: string): (r: Option<Product>)
    ensures r.None? <==> forall i :: 0 <= i < |ps| ==> ps[i].url != url
    ensures r.Some? ==> exists i :: (0 <= i < |ps| && ps[i] == r.value && ps[i].url == url
                                     && forall j :: 0 <= j < i ==> ps[j].url != url)
  {
    if ps == [] then None
    else if ps[0].url == url then Some(ps[0])
    else
      var r := FirstWithUrl(ps[1..], url);
      assert forall i :: 0 <= i < |ps| - 1 ==> ps[1..][i] == ps[i + 1];
      r
  }

  /** The products recommended for the given top pairs, with their scores. */
  function Picks(ps: seq<Product>, top: seq<(string, real)>): seq<(Product, real)>
  {
    if top == [] then []
    else
      var n := |top| - 1;
      Picks(ps, top[..n])
      + (match FirstWithUrl(ps, top[n].0) case Some(p) => [(p, top[n].1)] case None => [])
  }

  /** Which products `generate_recommendation` names, with their scores: the `top_n` best
      cp scores whose url matches a product. An empty result means it returns the generic
      text; the wording of the sentences is not modelled. */
  function RecommendationOf(ps: seq<Product>, cpScores: Dict<string, real>, topN: int): seq<(Product, real)>
  {
    Picks(ps, Take(SortDesc(cpScores), topN))
  }

  /** `generate_recommendation`: the loop over the sorted, sliced scores. */
  method GenerateRecommendation(ps: seq<Product>, cpScores: Dict<string, real>, topN: int)
    returns (picks: seq<(Product, real)>)
    ensures picks == RecommendationOf(ps, cpScores, topN)
  {
    var top := Take(SortDesc(cpScores), topN);
    picks := [];
    for k := 0 to |top|
      invariant picks == Picks(ps, top[..k])
    {
      assert top[..k + 1][..k] == top[..k];
      var (productId, score) := top[k];
      var product := FirstWithUrl(ps, productId);
      if product.Some? {
        picks := picks + [(product.value, score)];
      }
    }
    assert top[..|top|] == top;
  }

  /** Every pick is the first product with the url of one of the top pairs, with that
      pair's score; pairs without a product are skipped, so there are at most as many picks
      as top pairs, and exactly as many when every top url has a product. */
  lemma {:induction false} PicksSpec(ps: seq<Product>, top: seq<(string, real)>)
    ensures |Picks(ps, top)| <= |top|
    ensures (forall i :: 0 <= i < |top| ==> FirstWithUrl(ps, top[i].0).Some?) ==> |Picks(ps, top)| == |top|
    ensures forall q :: q in Picks(ps, top) ==>
              exists i :: 0 <= i < |top| && FirstWithUrl(ps, top[i].0) == Some(q.0) && q.1 == top[i].1
  {
    if top != [] {
      var n := |top| - 1;
      PicksSpec(ps, top[..n]);
      assert forall i :: 0 <= i < n ==> top[..n][i] == top[i];
    }
  }

  /** The picks come in non-increasing score order. */
  lemma {:induction false} PicksSorted(ps: seq<Product>, top: seq<(string, real)>)
    requires SortedDesc(top)
    ensures SortedDesc(Picks(ps, top))
    ensures forall q :: q in Picks(ps, top) ==> top != [] && q.1 >= top[|top| - 1].1
  {
    if top != [] {
      var n := |top| - 1;
      SortedPrefix(top, n);
      PicksSorted(ps, top[..n]);
      var before := Picks(ps, top[..n]);
      assert forall q :: q in before ==> q.1 >= top[n].1 by {
        forall q | q in before ensures q.1 >= top[n].1 {
          assert top[..n][n - 1] == top[n - 1];
        }
      }
      match FirstWithUrl(ps, top[n].0)
      case Some(p) =>
        SortedSnoc(before, (p, top[n].1));
      case None =>
        assert Picks(ps, top) == before;
    }
  }

  /** A pair no larger than any before it extends a sorted sequence. */
  lemma SortedSnoc<T>(s: seq<(T, real)>, x: (T, real))
    requires SortedDesc(s) && forall q :: q in s ==> q.1 >= x.1
    ensures SortedDesc(s + [x])
  {
    forall i, j | 0 <= i < j < |s + [x]| ensures (s + [x])[i].1 >= (s + [x])[j].1 {
      assert (s + [x])[i] == s[i];
      if j < |s| {
        assert (s + [x])[j] == s[j];
      } else {
        assert s[i] in s;
      }
    }
  }

  /** The recommendation names at most `top_n` products, the best scores first. */
  lemma RecommendationSpec(ps: seq<Product>, cpScores: Dict<string, real>, topN: int)
    ensures topN >= 0 ==> |RecommendationOf(ps, cpScores, topN)| <= topN
    ensures SortedDesc(RecommendationOf(ps, cpScores, topN))
  {
    var sorted := SortDesc(cpScores);
    SortDescSpec(cpScores);
    var top := Take(sorted, topN);
    SortedPrefix(sorted, |top|);
    PicksSpec(ps, top);
    PicksSorted(ps, top);
  }

  // ------------------------------------------------------- analyze_products

  /** What `analyze_products` returns. */
  datatype Analysis = Analysis(
    featureWeights: Dict<string, real>,
    reviewAnalysis: SentimentResult,
    prosAndCons: Dict<string, ProsCons>,
    userMatch: MatchScores,
    valuePropositions: Dict<string, ValueProp>,
    hasAnalyzer: bool)

  /** All reviews of all products, in order. */
  function AllReviews(ps: seq<Product>): seq<string>
  {
    if ps == [] then [] else ps[0].reviews + AllReviews(ps[1..])
  }

  /** Collecting the reviews of two lists one after the other is collecting those of
      the joined list. */
  lemma {:induction false} AllReviewsAppend(a: seq<Product>, b: seq<Product>)
    ensures AllReviews(a + b) == AllReviews(a) + AllReviews(b)
  {
    if a == [] {
      assert a + b == b;
    } else {
      assert (a + b)[0] == a[0] && (a + b)[1..] == a[1..] + b;
      AllReviewsAppend(a[1..], b);
    }
  }

  /** The loop of `analyze_products` that extends `all_reviews` with each product's reviews. */
  method CollectReviews(ps: seq<Product>) returns (all: seq<string>)
    ensures all == AllReviews(ps)
  {
    all := [];
    for i := 0 to |ps|
      invariant all == AllReviews(ps[..i])
    {
      assert ps[..i + 1] == ps[..i] + [ps[i]];
      AllReviewsAppend(ps[..i], [ps[i]]);
      assert AllReviews([ps[i]]) == ps[i].reviews by {
        assert [ps[i]][1..] == [];
      }
      all := all + ps[i].reviews;
    }
    assert ps[..|ps|] == ps;
  }

  /** The result of the exception handler of `analyze_products`. */
  function FallbackAnalysis(ps: seq<Product>): Analysis
  {
    var urls := Urls(ps);
    Analysis(
      DefaultWeightsOf(ps),
      NoReviews,
      ZipDict(urls, seq(|ps|, i => ProsCons(["性能穩定"], [], "所有用戶", 0.0))),
      Scored(ZipDict(urls, seq(|ps|, i => Match(50, [], [], "基於 CP 值排序")))),
      ZipDict(urls, seq(|ps|, i => ValueProp([], UnknownFairness, [], None))),
      false)
  }

  /** `analyze_products`: `raises` stands for an exception escaping the analysis steps. */
  method AnalyzeProducts(ps: seq<Product>, requirement: string, configuredKey: string, envKey: string,
                         hasGenerativeModel: bool, configureRaises: bool, outcome: CallOutcome,
                         parse: string -> Option<Dict<string, real>>, jitter: string -> real, raises: bool)
    returns (a: Analysis)
    ensures raises ==> a == FallbackAnalysis(ps)
    ensures !raises ==>
              var key := if envKey != "" then envKey else configuredKey;
              var local := key == "" || configureRaises;
              var api := if local then NoApi else if hasGenerativeModel then NewApi else OldApi;
              a == Analysis(ImportanceOf(local, api, ps, outcome, parse, jitter),
                            ReviewSentiment(AllReviews(ps)), ProsAndCons(ps),
                            MatchScoresOf(ps, requirement), ValuePropositions(ps), true)
  {
    var defaults := DefaultWeights(ps);
    if raises {
      var urls := Urls(ps);
      return Analysis(defaults, NoReviews,
                      ZipDict(urls, seq(|ps|, i => ProsCons(["性能穩定"], [], "所有用戶", 0.0))),
                      Scored(ZipDict(urls, seq(|ps|, i => Match(50, [], [], "基於 CP 值排序")))),
                      ZipDict(urls, seq(|ps|, i => ValueProp([], UnknownFairness, [], None))),
                      false);
    }
    var analyzer := new GeminiAnalyzer(configuredKey, envKey, hasGenerativeModel, configureRaises);
    var weights := analyzer.AnalyzeFeatureImportance(ps, outcome, parse, jitter);
    var allReviews := CollectReviews(ps);
    var prosAndCons := AnalyzeProsAndCons(ps);
    var matches := UserMatchScores(ps, requirement);
    var propositions := AnalyzeValueProposition(ps);
    a := Analysis(weights, ReviewSentiment(allReviews), prosAndCons, matches, propositions, true);
  }

  /** Under the fallback every feature some product has weighs 1.0, the review verdict is
      the neutral default, and every url gets the fallback entries. */
  lemma FallbackSpec(ps: seq<Product>, f: string, i: int)
    requires 0 <= i < |ps| && forall j :: i < j < |ps| ==> ps[j].url != ps[i].url
    ensures f in Keys(FallbackAnalysis(ps).featureWeights) <==> CountHaving(ps, f) > 0
    ensures f in Keys(FallbackAnalysis(ps).featureWeights) ==>
              Get(FallbackAnalysis(ps).featureWeights, f) == 1.0
    ensures FallbackAnalysis(ps).reviewAnalysis == NoReviews
    ensures ps[i].url in Keys(FallbackAnalysis(ps).prosAndCons)
              && Get(FallbackAnalysis(ps).prosAndCons, ps[i].url).pros == ["性能穩定"]
    ensures ps[i].url in Keys(FallbackAnalysis(ps).userMatch.scored)
              && Get(FallbackAnalysis(ps).userMatch.scored, ps[i].url).score == 50
  {
    DefaultWeightsSpec(ps, f);
    var urls := Urls(ps);
    ZipDictGet(urls, seq(|ps|, i => ProsCons(["性能穩定"], [], "所有用戶", 0.0)), i);
    ZipDictGet(urls, seq(|ps|, i => Match(50, [], [], "基於 CP 值排序")), i);
  }
}
