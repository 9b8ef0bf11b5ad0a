# CP_Compare core in Dafny

CP_Compare scores products by "CP value" (性價比, value for money). Scraped product
records are cleaned into a canonical shape. A common-feature index keeps the features that
at least 80% of the products have. Every product then gets a weighted feature score per
thousand of price, with a bonus for its rating, and the products are ranked, filtered by
budget and summarised. Feature weights come from an external language model when it
answers. Otherwise they come from a local rules table with a frequency adjustment and a
small random jitter. Around this pipeline sit some keyword heuristics (review sentiment,
pros, requirement match, price tiers), a parser for the model's `key: value` answers about
product images, and the page-independent parts of the similar-product finder: the category
taken from a URL, the search keywords and links, the cleanup of price text and the range
check of ratings.

The project has eight modules:

| module | file | what it holds |
|---|---|---|
| `Strings` | strings.dfy | character classes, ASCII case mapping, `in`, `find`, `strip`, `split` and number reading on `seq<char>` |
| `Dicts` | dicts.dfy | Python dictionaries as association lists with distinct keys, in insertion order; `Put` is `d[k] = v` |
| `StableSort` | sorting.dfy | Python's `sorted` by value in reverse order, as a stable insertion sort |
| `DataCleaner` | data_cleaner.dfy | `utils/data_cleaner.py` |
| `CpCalculator` | cp_calculator.dfy | `utils/cp_calculator.py` |
| `NlpAnalyzer` | nlp_analyzer.dfy | `utils/nlp_analyzer.py`, with the class `GeminiAnalyzer` and its `use_local_mode` flag |
| `ImageRecognizer` | image_recognizer.dfy | `_parse_specs_response` of `utils/image_recognizer.py` |
| `SimilarFinder` | similar_finder.dfy | the URL category, search and price/rating parts of `utils/similar_finder.py` |

The modelled operations build their results with `for` loops. Each of these loops is a
Dafny `method` whose `ensures` ties its result to a function of its inputs; comprehensions,
`any(...)`, `sum(...)`, `max(...)` and `sorted(...)` are functions. The lemmas then prove
what the program promises about those functions. Dictionaries keep Python's insertion order, so "the
last product with a url wins" and "the first table entry that matches wins" are stated as
they are written. Prices, weights and scores are `real`. Every result is the value before
Python's final `round`.

## Model

| member | source | states |
|---|---|---|
| DataCleaner.NormalizeValue | utils/data_cleaner.py:46-56 | a non-string comes back as `str(value)`; for a string, the result holds only kept characters (`\w`, white space, CJK, `.`, `-`) and only plain spaces, has no space at either end, and keeps exactly the input's kept non-space characters in order |
| DataCleaner.ExtractNumeric | utils/data_cleaner.py:59-70 | an int or float is returned unchanged; any other value gives a number ≥ 0, and 0.0 when its text has no digit |
| DataCleaner.FirstNumberInteger | utils/data_cleaner.py:65-68 | the first run of digits not followed by a point is read as that integer, whatever non-digit text comes before it |
| DataCleaner.FirstNumberDecimal | utils/data_cleaner.py:65-68 | a first run of digits followed by a point reads the digits after the point as the fraction |
| DataCleaner.ExtractNumericMemoryExample | test.py:54-56 | "記憶體: 16GB" gives 16.0 |
| DataCleaner.ConversionFactor | utils/data_cleaner.py:92-93 | `UNIT_CONVERSIONS.get(unit, 1)` is always positive, so the division never fails |
| DataCleaner.WeightUnitsAreNotConverted | utils/data_cleaner.py:86-93 | the detected unit is upper-cased before the lookup, so `KG`, `G` and `LBS` fall back to factor 1 although `g` and `lbs` have other factors in the table |
| DataCleaner.DetectUnitSpec | utils/data_cleaner.py:84-88 | the detection loop finds nothing exactly when no upper-cased table unit occurs in the text, and otherwise the first table unit that occurs |
| DataCleaner.UnitDetectionSpec | utils/data_cleaner.py:84-98 | the reported unit is "unknown" exactly when no table unit occurs, and otherwise the upper-cased first one in table order |
| DataCleaner.UnitConversionSpec | utils/data_cleaner.py:80-99 | the value is the first number of the upper-cased text; the normalized value equals it when there is no unit or no target, and is converted when both exist |
| DataCleaner.DetectedUnitIsShort | utils/data_cleaner.py:87-98 | a detected unit has at most three characters, so it never reads as "unknown" |
| DataCleaner.NormalizeUnit | utils/data_cleaner.py:73-100 | the loop with its `break` returns the reading the three lemmas above describe |
| DataCleaner.FirstMappedFirst | utils/data_cleaner.py:108-110 | the first `FEATURE_MAPPING` key, in table order, that occurs in the name decides the canonical name |
| DataCleaner.FirstMappedNone | utils/data_cleaner.py:108-112 | a name containing no table key comes back lower-cased and stripped |
| DataCleaner.CpuChineseName | test.py:64-67 | "處理器" maps to "CPU" |
| DataCleaner.CpuEnglishName | test.py:64-67 | "CPU" and "cpu" map to "CPU" |
| DataCleaner.NormalizeFeatureName | utils/data_cleaner.py:103-112 | the first-match loop with its early return computes the canonical name |
| DataCleaner.CleanedSpecs | utils/data_cleaner.py:134-138 | every raw spec key's canonical name is a cleaned key; when several raw keys share a canonical name, the last one supplies the normalized value |
| DataCleaner.CleanedSpecKeys | utils/data_cleaner.py:134-138 | every cleaned key is the canonical name of some raw key |
| DataCleaner.CleanProduct | utils/data_cleaner.py:115-140 | the record with url default '', name through `normalize_value`, price and rating through `extract_numeric`, reviews unchanged, and specs filled by the loop |
| DataCleaner.CleanSpecEntries | utils/data_cleaner.py:135-138 | the spec loop builds the dictionary of each raw entry's normalised value under its canonical key, later entries overwriting earlier ones |
| DataCleaner.CleanProducts | utils/data_cleaner.py:143-145 | one cleaned record per raw record, same length and order |
| DataCleaner.KeepFrequent | utils/data_cleaner.py:167-171 | the comprehension keeps exactly the features with at least `threshold` values, with their lists unchanged |
| DataCleaner.AllFeaturesSpec | utils/data_cleaner.py:159-164 | the collected index has exactly the features some product has, each with its values in product order, one per product having it |
| DataCleaner.CommonFeaturesSpec | utils/data_cleaner.py:155-171 | no products give `{}`; a feature is kept exactly when at least 0.8·N products have it; its list is its values in product order, of length in [0.8·N, N] |
| DataCleaner.CommonFeaturesNonEmpty | utils/data_cleaner.py:159-171 | no list in the index is empty, so a later `max` over it is defined |
| DataCleaner.CommonFeaturesBoundary | utils/data_cleaner.py:166-171 | of five products four must have a feature, of ten eight |
| DataCleaner.ExtractCommonFeatures | utils/data_cleaner.py:148-173 | the nested collecting loops followed by the filter compute the common-feature index |
| CpCalculator.FeatureScore | utils/cp_calculator.py:13-36 | 0.5 for a non-numeric feature or a zero maximum, 0 for a negative maximum, and always in [0, 1] |
| CpCalculator.FeatureScoreShare | utils/cp_calculator.py:28-36 | with a positive maximum, the score is the value's share of the maximum up to it and 1 from it on |
| CpCalculator.FeatureScoreMonotone | utils/cp_calculator.py:28-36 | with a fixed positive maximum, a larger number never scores lower |
| CpCalculator.DigitsThenUnit | utils/data_cleaner.py:65-68 | digits followed by a unit read as the integer, as in "16GB" |
| CpCalculator.FeatureScoreSixteen | test.py:116-117 | "16" against the maximum 16 scores 1.0 |
| CpCalculator.FirstMax | utils/cp_calculator.py:299-300 | `max(..., key=...)`: an index of a largest value, with every earlier value strictly smaller |
| CpCalculator.FirstMin | utils/cp_calculator.py:301 | `min(..., key=...)`: an index of a smallest value, with every earlier value strictly larger |
| CpCalculator.MaxNumeric | utils/cp_calculator.py:71-74 | the maximum over a feature's index list is at least every element's number and is one of them |
| CpCalculator.TotalsStep | utils/cp_calculator.py:62-87 | one iteration: an absent feature changes neither total; a present one adds score·weight to the weighted score and the weight to the total |
| CpCalculator.CalculateCpValue | utils/cp_calculator.py:39-101 | the accumulating loop computes the CP value the lemmas below describe |
| CpCalculator.TotalsBounds | utils/cp_calculator.py:62-87 | with non-negative weights, 0 ≤ weighted score ≤ total weight |
| CpCalculator.AbsentFeatureTotals | utils/cp_calculator.py:63-64 | a weighted feature the product lacks changes neither total |
| CpCalculator.AbsentFeatureIgnored | utils/cp_calculator.py:63-64 | a weighted feature the product lacks does not change the CP value |
| CpCalculator.NoWeightedFeature | utils/cp_calculator.py:89-94 | when the product has none of the weighted features, both totals are 0, the divisor 1 is used and the CP value is 0 |
| CpCalculator.CpValueBounds | utils/cp_calculator.py:55-99 | a price ≤ 0 gives exactly 0; otherwise, with non-negative weights and rating, 0 ≤ CP ≤ (1000 / price)·(1 + rating/5·0.2) |
| CpCalculator.TestNumbers | test.py:100-123 | the numbers of the self-test values: "高效能" and "標準" give 0, "16GB" 16 and "8GB" 8 |
| CpCalculator.MaxNumericOfTwo | utils/cp_calculator.py:71-74 | the maximum of a two-element list is the larger number, the first on a tie |
| CpCalculator.TestIndex | test.py:121-124 | in the self-test index the CPU maximum is 0 and the RAM maximum is 16 |
| CpCalculator.TestWeightsTotals | test.py:120 | under `{CPU: 2, RAM: 3}` the totals are 2·CPU score + 3·RAM score and 5 |
| CpCalculator.ScoresA | test.py:94-103 | product A: CPU scores 0.5 (zero maximum), RAM scores 1 |
| CpCalculator.ScoresB | test.py:104-112 | product B: CPU scores 0.5, RAM scores 0.5 |
| CpCalculator.TestScenario | test.py:94-131 | product A's CP value is 0.0944, and product B's is smaller |
| CpCalculator.AllCpValuesSpec | utils/cp_calculator.py:104-125 | one key per product url; a url's value is the CP value of the last product with it, scored against the index of the same list |
| CpCalculator.CalculateAllCpValues | utils/cp_calculator.py:104-125 | the loop builds the index and fills `{url: cp}` as the lemma above describes |
| CpCalculator.ScoreEach | utils/cp_calculator.py:115-123 | after the loop every url of the list is bound to the CP value of the last product carrying it, in first-occurrence order (the `{url: cp}` association of the products with their CP values) |
| CpCalculator.ScoredPairs | utils/cp_calculator.py:181 | each product is paired with `cp_values.get(url, 0)`, in order |
| CpCalculator.RankingOf | utils/cp_calculator.py:186-197 | entry i is the (i+1)-th top pair, numbered i+1 |
| CpCalculator.RecommendationRanking | utils/cp_calculator.py:163-199 | sorting, slicing and the appending loop compute the ranking |
| CpCalculator.RankingSpec | utils/cp_calculator.py:180-197 | min(top_n, N) entries for a non-negative top_n; ranks 1, 2, … ; CP never increases; nothing left out beats anything kept; sorting is a permutation; products of equal CP keep input order |
| StableSort.SortDescSpec | utils/cp_calculator.py:180-184 | `sorted(..., reverse=True)` returns a permutation, sorted by descending value, that keeps the input order among equal values |
| StableSort.SortDescFirsts | utils/cp_calculator.py:270-276 | sorting keeps every product exactly as often as it occurs |
| CpCalculator.ScoreBreakdown | utils/cp_calculator.py:202-236 | one entry per weighted feature, in the weights' order |
| CpCalculator.BreakdownEntrySpec | utils/cp_calculator.py:213-234 | an absent feature gives 0; a present one gives score·weight, in [0, weight] for a non-negative weight |
| CpCalculator.BreakdownSumsToWeighted | utils/cp_calculator.py:213-234 | the breakdown's entries add up to the weighted score that the CP value is built from |
| CpCalculator.Affordable | utils/cp_calculator.py:252 | exactly the products priced at or below the budget |
| CpCalculator.BudgetRecommendations | utils/cp_calculator.py:239-276 | filtering, scoring the affordable products and sorting compute the budget list |
| CpCalculator.SortedScoresMembers | utils/cp_calculator.py:270-274 | every sorted pair is a product of the list with its looked-up CP value |
| CpCalculator.SortedScoresSpec | utils/cp_calculator.py:270-276 | the sorted list holds each product once, by CP descending, ties in input order |
| CpCalculator.BudgetSpec | utils/cp_calculator.py:252-276 | the result is empty exactly when nothing is affordable; otherwise it is a permutation of the affordable products, sorted by CP with ties in order, each scored against the index of the affordable products alone |
| CpCalculator.PricePerformanceStats | utils/cp_calculator.py:279-320 | `{}` exactly for no products; the division by `len(cp_vals)` fails exactly when there are products but no CP values |
| CpCalculator.PriceRangeSpec | utils/cp_calculator.py:296-306 | the range holds the smallest and largest price, and the average price lies within it |
| CpCalculator.AverageCpSpec | utils/cp_calculator.py:305 | the average CP value lies between the smallest and the largest value of the CP dictionary |
| CpCalculator.BestValueSpec | utils/cp_calculator.py:299-311 | the best-value entry is the first product with the highest looked-up CP |
| CpCalculator.PriceExtremesSpec | utils/cp_calculator.py:300-319 | the most expensive and cheapest entries are the first products with the highest and lowest price |
| CpCalculator.MostExpensive | utils/cp_calculator.py:300-315 | the most expensive entry names the first product of the highest price and gives its price |
| CpCalculator.Cheapest | utils/cp_calculator.py:301-319 | the cheapest entry names the first product of the lowest price and gives its price |
| NlpAnalyzer.RulesInRange | utils/nlp_analyzer.py:12-36 | every rule weight lies in [1, 3] |
| NlpAnalyzer.ColorWeight | utils/nlp_analyzer.py:24-35 | '顏色' is written twice, and the later 1.0 is its weight, returned without jitter |
| NlpAnalyzer.ColorExact | utils/nlp_analyzer.py:14-36 | the exact-match lookup of '顏色' finds weight 1.0, the later of its two entries |
| NlpAnalyzer.ExactWeight | utils/nlp_analyzer.py:101-103 | found exactly when some lower-cased key equals the lower-cased feature, giving the first such key's weight |
| NlpAnalyzer.BestMatch | utils/nlp_analyzer.py:106-109 | at least 1.0, at least every overlapping key's weight, and 1.0 or one of them |
| NlpAnalyzer.AdjustedInRange | utils/nlp_analyzer.py:112-119 | the frequency adjustment keeps a weight of [1, 3] inside [1, 3] |
| NlpAnalyzer.AdjustedThresholds | utils/nlp_analyzer.py:113-119 | +0.3 capped at 3 when 5·count ≥ 4·N, −0.3 floored at 1 when 2·count < N, unchanged in between |
| NlpAnalyzer.LocalWeightSpec | utils/nlp_analyzer.py:96-122 | an exact match returns the table weight with no adjustment or jitter; otherwise the best match (in [1, 3]) is adjusted and jittered; with \|jitter\| ≤ 0.15 the result lies in [0.85, 3.15], and it is not clamped |
| NlpAnalyzer.AnalyzeFeatureLocally | utils/nlp_analyzer.py:96-122 | the two loops, the adjustment and the jitter compute the local weight |
| NlpAnalyzer.ExactScan | utils/nlp_analyzer.py:101-103 | the loop returns the weight of the first rule whose lower-cased key equals the lower-cased feature, and nothing when no key does (the properties of `ExactWeight`: found exactly when such a rule exists, and then the first one) |
| NlpAnalyzer.PartialScan | utils/nlp_analyzer.py:106-109 | the loop leaves the largest weight among the rules overlapping the feature, or 1.0 (the properties of `BestMatch`: at least 1, no overlapping rule above it, attained by one unless it is 1) |
| NlpAnalyzer.FeatureList | utils/nlp_analyzer.py:128-140 | `list(features)` holds every feature once |
| NlpAnalyzer.FeatureListSpec | utils/nlp_analyzer.py:128-140 | a feature is listed exactly when some product has it |
| NlpAnalyzer.CollectFeatures | utils/nlp_analyzer.py:131-132 | the loop adding each product's spec keys to `features` builds the feature list |
| NlpAnalyzer.AddDefaults | utils/nlp_analyzer.py:356-358 | one product's keys not yet present get 1.0 |
| NlpAnalyzer.DefaultWeights | utils/nlp_analyzer.py:354-358 | the nested loops build the default weights |
| NlpAnalyzer.DefaultWeightsSpec | utils/nlp_analyzer.py:354-358 | exactly the features some product has, each with weight 1.0 |
| NlpAnalyzer.BackFill | utils/nlp_analyzer.py:173-175 | the keys are the answer's keys plus the listed features |
| NlpAnalyzer.BackFillSpec | utils/nlp_analyzer.py:173-175 | the answer's values are kept, and each missing listed feature gets its local weight |
| NlpAnalyzer.BackFillWeights | utils/nlp_analyzer.py:173-175 | the back-filling loop |
| NlpAnalyzer.LocalImportance | utils/nlp_analyzer.py:183-185 | the local loop gives each listed feature its local weight |
| NlpAnalyzer.GeminiAnalyzer.constructor | utils/nlp_analyzer.py:42-71 | an environment key overrides the configured one; no key, or a failing configuration, starts in local mode with no client; otherwise the new or old client |
| NlpAnalyzer.GeminiAnalyzer.CallGemini | utils/nlp_analyzer.py:73-94 | the reply text, or "" on error or without a client; an error mentioning 429, quota or exceeded sets local mode, and nothing clears it |
| NlpAnalyzer.GeminiAnalyzer.AnalyzeFeatureImportance | utils/nlp_analyzer.py:124-188 | asks only outside local mode; a non-empty reply that parses is back-filled; anything else takes the local loop; the flag changes as in `_call_gemini` |
| NlpAnalyzer.LocalModeIsSticky | utils/nlp_analyzer.py:44-91 | after any run of calls, a set flag is still set; the flag is set exactly when it was set before or some call hit the quota |
| NlpAnalyzer.LocalModeIgnoresReply | utils/nlp_analyzer.py:143 | in local mode the result does not depend on what the model would answer |
| NlpAnalyzer.LocalImportanceSpec | utils/nlp_analyzer.py:143-185 | in local mode, or on an empty or unparsable reply, the keys are exactly the features some product has, each with its local weight |
| NlpAnalyzer.ExternalImportanceSpec | utils/nlp_analyzer.py:161-178 | with a parsed reply, the keys are the answer's plus every product feature; the answer's values are kept and the others back-filled locally |
| NlpAnalyzer.FencedJsonSpec | utils/nlp_analyzer.py:165-170 | a fenced reply yields text with no fence in it; an unfenced reply is taken whole |
| NlpAnalyzer.HitsIn | utils/nlp_analyzer.py:199-200 | one review hits at most as many keywords as there are |
| NlpAnalyzer.ReviewSentiment | utils/nlp_analyzer.py:190-193 | the no-reviews result exactly for an empty list |
| NlpAnalyzer.VerdictSpec | utils/nlp_analyzer.py:202-214 | no hits give neutral at 0.5; otherwise the score is pos/(pos+neg) in [0, 1]; positive exactly above 0.6, negative exactly below 0.4 |
| NlpAnalyzer.ReviewSentimentSpec | utils/nlp_analyzer.py:196-214 | the verdict of the positive and negative keyword hits over all reviews, with a score in [0, 1] |
| NlpAnalyzer.ProsConsSpec | utils/nlp_analyzer.py:227-252 | one to three pros and no cons; '性能穩定' alone exactly when no check applies; a rating ≥ 4 always shows; the pros are a prefix of the checks in order |
| NlpAnalyzer.ProsAndConsSpec | utils/nlp_analyzer.py:225-254 | one entry per url, from the last product with it |
| NlpAnalyzer.AnalyzeProsAndCons | utils/nlp_analyzer.py:223-254 | the loop over the products builds the dictionary of each url's pros-and-cons entry |
| NlpAnalyzer.StoreByUrl | utils/nlp_analyzer.py:227-252 | storing one entry per product under its url, in order, gives the dictionary with each url bound to the entry of the last product carrying it |
| NlpAnalyzer.MatchCount | utils/nlp_analyzer.py:270-274 | at most one match per token |
| NlpAnalyzer.CountMatches | utils/nlp_analyzer.py:270-274 | the counting loop |
| NlpAnalyzer.UserMatchScores | utils/nlp_analyzer.py:256-285 | the loop over the products builds the match scores |
| NlpAnalyzer.MatchEach | utils/nlp_analyzer.py:266-282 | after the loop every url of the list is bound to the match entry (score and recommendation) of the last product carrying it |
| NlpAnalyzer.MatchOfSpec | utils/nlp_analyzer.py:276-282 | score 50 + 10·k up to 100; 推薦 exactly from three matches, 可考慮 with one or two, 謹慎評估 with none |
| NlpAnalyzer.MatchScoresSpec | utils/nlp_analyzer.py:260-285 | no requirement gives 50.0 for every url; with one, a url's entry is that of the last product with it |
| NlpAnalyzer.ValuePropSpec | utils/nlp_analyzer.py:293-314 | premium exactly above 5000, budget exactly at or below 2000; fair exactly from 4.0, slightly overpriced in [3.5, 4), possibly overpriced below; a higher price never lands in a lower tier |
| NlpAnalyzer.AnalyzeValueProposition | utils/nlp_analyzer.py:288-322 | the loop over the products builds the dictionary of each url's value proposition |
| NlpAnalyzer.ValuePropositionsSpec | utils/nlp_analyzer.py:293-320 | one proposition per url, from the last product with it |
| NlpAnalyzer.FirstWithUrl | utils/nlp_analyzer.py:339 | `next(...)` is none exactly when no product has the url, and otherwise the first product that has it |
| NlpAnalyzer.GenerateRecommendation | utils/nlp_analyzer.py:326-346 | the loop over the sorted, sliced scores picks the products |
| NlpAnalyzer.PicksSpec | utils/nlp_analyzer.py:338-344 | at most one pick per top pair, exactly one when every url has a product; each pick is the first product with its url, with that pair's score |
| NlpAnalyzer.PicksSorted | utils/nlp_analyzer.py:331-344 | the picks come in non-increasing score order, none below the last top score |
| NlpAnalyzer.RecommendationSpec | utils/nlp_analyzer.py:326-346 | at most top_n products, best scores first |
| NlpAnalyzer.AnalyzeProducts | utils/nlp_analyzer.py:349-392 | on an exception, the fallback result with the default weights; otherwise the five analyses of a freshly built analyzer |
| NlpAnalyzer.CollectReviews | utils/nlp_analyzer.py:367-369 | the loop gathers every product's reviews, products in order and each product's reviews in order |
| NlpAnalyzer.AllReviewsAppend | utils/nlp_analyzer.py:367-369 | the reviews of two product lists one after the other are the reviews of the first followed by those of the second |
| NlpAnalyzer.FallbackSpec | utils/nlp_analyzer.py:383-390 | under the fallback every product feature weighs 1.0, the review verdict is the neutral default, and every url gets '性能穩定' and a match score of 50 |
| ImageRecognizer.KeyOf | utils/image_recognizer.py:128-134 | a key never contains ':' and never starts with a digit, '.', '）', ')', '、' or a space |
| ImageRecognizer.ValueOf | utils/image_recognizer.py:128-131 | a value is stripped |
| ImageRecognizer.ParseLine | utils/image_recognizer.py:122-141 | a line without ':' gives nothing; an emitted pair has key and value longer than one character, a key with no ':' and no leading numbering, a stripped value, and a lower-cased value outside the blocklist |
| ImageRecognizer.ParseLineRoundTrip | utils/image_recognizer.py:122-141 | a line `key:value` with a clean key and an acceptable value, possibly after list numbering such as "1. ", is read back as that pair, even when the value holds ':' |
| ImageRecognizer.AssignLines | utils/image_recognizer.py:122-141 | the loop assigns each parsed pair and counts the assignments |
| ImageRecognizer.ParseSpecsResponse | utils/image_recognizer.py:114-147 | the dictionary of the answer split into lines, and the number of accepted lines |
| ImageRecognizer.SpecsValid | utils/image_recognizer.py:137-141 | every entry of the result passed the filter |
| ImageRecognizer.NoColonIgnored | utils/image_recognizer.py:123-125 | a line without ':' adds nothing and is not counted |
| ImageRecognizer.EmptyResponse | utils/image_recognizer.py:119-147 | an empty answer gives an empty dictionary |
| ImageRecognizer.AssignEntries | utils/image_recognizer.py:140 | every entry of the dictionary was assigned by some line |
| ImageRecognizer.AssignGet | utils/image_recognizer.py:140 | a key's value comes from the last line with that key |
| ImageRecognizer.AssignKeys | utils/image_recognizer.py:140 | a key is present exactly when some line yields it |
| ImageRecognizer.AssignCount | utils/image_recognizer.py:141 | the count never exceeds the number of lines |
| ImageRecognizer.CountBoundsSpecs | utils/image_recognizer.py:140-141 | the count is never below the number of keys, since repeated keys are counted each time |
| ImageRecognizer.SpecsRoundTrip | utils/image_recognizer.py:114-147 | a dictionary of clean entries, written one `key:value` per line, is parsed back unchanged |
| SimilarFinder.CategoryFromUrl | utils/similar_finder.py:214-225 | one of the six categories; any URL containing "phone" is a phone |
| SimilarFinder.HeadphonesAreFiledAsPhones | utils/similar_finder.py:214-219 | a URL naming headphones or earphones is filed as 手機 |
| SimilarFinder.EarphonesOnlyByEarbud | utils/similar_finder.py:214-219 | 耳機 exactly for "earbud" with no phone or laptop keyword |
| SimilarFinder.DefaultCategory | utils/similar_finder.py:214-225 | 電子產品 exactly when none of the twelve keywords occurs |
| SimilarFinder.CandidatesSpec | utils/similar_finder.py:304-319 | a candidate is exactly the brand (the name's first word), the category when not the default, the name, or a spec key |
| SimilarFinder.QueryList | utils/similar_finder.py:301-319 | the appends build the candidate list |
| SimilarFinder.AppendKeys | utils/similar_finder.py:318-319 | the spec keys are appended in order |
| SimilarFinder.Unique | utils/similar_finder.py:321 | duplicates dropped, first appearances kept |
| SimilarFinder.GenerateSearchQueries | utils/similar_finder.py:295-321 | no duplicates, and a query exactly when it is a candidate |
| SimilarFinder.BuildSearchUrls | utils/similar_finder.py:323-347 | an unknown platform gives []; otherwise min(3, number of queries) links, each the platform's base followed by a distinct query |
| SimilarFinder.Links | utils/similar_finder.py:334-345 | one link per query of the first three, in the order of the queries, each the base followed by that query |
| SimilarFinder.KeepDigitsAnd | utils/similar_finder.py:182 | exactly the input's digits and kept characters |
| SimilarFinder.RemoveChar | utils/similar_finder.py:185 | exactly the input's characters other than the one removed |
| SimilarFinder.CommasDropped | utils/similar_finder.py:182-185 | dropping the commas after keeping them equals never keeping them |
| SimilarFinder.CleanPriceText | utils/similar_finder.py:182-190 | the step-by-step reassignments compute the cleaned price text |
| SimilarFinder.CleanPriceSpec | utils/similar_finder.py:182-190 | the cleaned text has only digits and points, at most one point, and is left as it was when it had at most one |
| SimilarFinder.OnePointSplit | utils/similar_finder.py:188-190 | text with at most one point splits into as many parts as it has points plus one, and joins back |
| SimilarFinder.DecimalFloat | utils/similar_finder.py:194 | `float()` of digits and points succeeds exactly when there is at most one point and at least one digit, and its value is then never negative |
| SimilarFinder.CleanPriceParses | utils/similar_finder.py:192-194 | a cleaned text that passes the guard always converts |
| SimilarFinder.PriceFromText | utils/similar_finder.py:182-196 | a price is returned only when it is positive |
| SimilarFinder.ExtractPrice | utils/similar_finder.py:167-202 | the result is ≥ 0: the first positive price in selector order, or 0, and it is 0 exactly when no text gives a price |
| SimilarFinder.FirstRead | utils/similar_finder.py:167-200 | the loop returns nothing exactly when no text is accepted, and otherwise the reading of the first accepted text |
| SimilarFinder.RatingFromText | utils/similar_finder.py:281-289 | a rating is accepted only in [0, 5] |
| SimilarFinder.RatingWithUnit | utils/similar_finder.py:281-289 | the text "4.5分" gives the rating 4.5: the unit is dropped before `float` |
| SimilarFinder.RatingTwoPoints | utils/similar_finder.py:281-289 | the text "4.5.1" gives no rating: `float` fails on two points |
| SimilarFinder.RatingWithoutDigit | utils/similar_finder.py:281-289 | "." and a text without a digit give no rating |
| SimilarFinder.ExtractRating | utils/similar_finder.py:275-293 | the result lies in [0, 5]: the first acceptable rating in selector order, or 0 when none is |

## Left out

- The external language model, the HTTP pages and their HTML selectors are not modelled. What they produce is an input: a `CallOutcome` for `_call_gemini`, and the list of texts of the elements the selectors find, in selector order, for `_extract_rating` and `_extract_price`.
- `json.loads` is a parameter `parse` that returns `None` on a parse error. `json.dumps` and `str()` of a dictionary are written out for string-valued dictionaries only, without escaping.
- `random.uniform(-0.15, 0.15)` is a jitter parameter, one value per feature. The bound |jitter| ≤ 0.15 is a hypothesis of the lemmas.
- Floating point is not modelled: all numbers are exact `real`s. The `round(·, 2)`, `round(·, 4)` and `round(·, 1)` at the end of `_analyze_feature_locally`, `calculate_cp_value`, `analyze_review_sentiment` and `analyze_pros_and_cons` are also not modelled.
- CpCalculator.CalculateCpValue: returns the CP value before `round(final_cp, 4)`.
- NlpAnalyzer.AnalyzeFeatureLocally: returns the weight before `round(·, 2)`.
- `lower()`, `upper()` and `isdigit()` are ASCII only, and `\w` is ASCII letters, digits, `_` and the CJK block. Python's Unicode case mapping and digit classes are wider.
- The iteration order of a Python `set` is unspecified. `list(features)` in `analyze_feature_importance` and `list(set(queries))` in `generate_search_queries` keep first appearances here.
- SimilarFinder.GenerateSearchQueries: states only what holds in every order: no duplicates and the set of queries.
- SimilarFinder.BuildSearchUrls: says which queries the first three links use only up to that order, because `queries[:3]` depends on it.
- NlpAnalyzer.FeatureList: states membership and distinctness, not the order.
- CpCalculator.CalculateCpValue and CpCalculator.ScoreBreakdown: `requires NonEmptyLists(common)`, so the `ValueError` of `max([])` at utils/cp_calculator.py:71-74 and 221-224 is not modelled. Every caller passes an index built by `extract_common_features`, and DataCleaner.CommonFeaturesNonEmpty proves that no list of such an index is empty.
- SimilarFinder.DecimalFloat: gives `float()` only for strings of digits and points, the only strings it meets here. Signs, exponents, "inf" and surrounding blanks are not modelled.
- `create_comparison_dataframe` is not modelled: it builds a pandas `DataFrame`, whose `sort_values` is not guaranteed stable.
- `analyze_value_proposition` ignores the weights it is given, and so does the model.
- `generate_recommendation` is modelled as the products it names and their scores, not its text.
- `ImageRecognizer.download_image`, the image extraction and merge functions and `MomoImageExtractor` download images and call a vision model; they are not part of this model.
- `extract_product_info_from_url`, `find_similar_products_on_same_platform`, the breadcrumb branch of `_extract_category`, the `data-price` attribute and the two `seoPrice` branches of `_extract_price` read HTML; they are not part of this model.
- `utils/scraper.py`, `app.py`, `config/settings.py` and the sample data are not part of this model.
- The client configuration in `GeminiAnalyzer.__init__` is reduced to its outcome. Whether a key exists, whether `configure` raises and whether the library has `GenerativeModel` are constructor parameters.
- An exception anywhere in the analysis steps of `analyze_products` is the parameter `raises`.
- `user_requirement` reaches `analyze_feature_importance` only through the prompt text, which is not modelled.
