/** The page-independent parts of `SimilarProductFinder`: the category guessed from a
    product URL, the search keywords built from a product, the platform search links, the
    clean-up of price text and the range check of ratings. */
module SimilarFinder {
  import opened Strings
  import opened Dicts

  // -------------------------------------------------------------- categories

  const Phone: string := "\U{624B}\U{6A5F}"
  const Laptop: string := "\U{7B46}\U{96FB}"
  const Earphones: string := "\U{8033}\U{6A5F}"
  const SmartWatch: string := "\U{667A}\U{80FD}\U{624B}\U{9336}"
  const Tablet: string := "\U{5E73}\U{677F}"
  /** The category used when nothing is recognised. */
  const Electronics: string := "\U{96FB}\U{5B50}\U{7522}\U{54C1}"

  /** The category `_extract_category` reads off the URL when the page has no breadcrumb.
      The tests are case-sensitive substring tests, tried in this order. */
  function CategoryFromUrl(url: string): (r: string)
    ensures r in {Phone, Laptop, Earphones, SmartWatch, Tablet, Electronics}
    ensures Contains(url, "phone") ==> r == Phone
  {
    if Contains(url, "phone") || Contains(url, "iphone") || Contains(url, "samsung") then Phone
    else if Contains(url, "laptop") || Contains(url, "notebook") || Contains(url, "macbook") then Laptop
    else if Contains(url, "headphone") || Contains(url, "earphone") || Contains(url, "earbud") then Earphones
    else if Contains(url, "watch") then SmartWatch
    else if Contains(url, "tablet") || Contains(url, "ipad") then Tablet
    else Electronics
  }

  /** Every URL naming headphones or earphones contains "phone", so it is filed as a phone. */
  lemma HeadphonesAreFiledAsPhones(url: string)
    requires Contains(url, "headphone") || Contains(url, "earphone")
    ensures CategoryFromUrl(url) == Phone
  {
    if Contains(url, "headphone") {
      ContainsAt("headphone", "phone", 4);
      ContainsTrans(url, "headphone", "phone");
    } else {
      ContainsAt("earphone", "phone", 3);
      ContainsTrans(url, "earphone", "phone");
    }
  }

  /** The earphone category is reached only through "earbud", and only when no phone or laptop
      keyword is present. */
  lemma EarphonesOnlyByEarbud(url: string)
    ensures CategoryFromUrl(url) == Earphones
        <==> Contains(url, "earbud")
             && !Contains(url, "phone") && !Contains(url, "samsung")
             && !Contains(url, "laptop") && !Contains(url, "notebook") && !Contains(url, "macbook")
  {
    if Contains(url, "iphone") {
      ContainsAt("iphone", "phone", 1);
      ContainsTrans(url, "iphone", "phone");
    }
    if Contains(url, "headphone") || Contains(url, "earphone") {
      HeadphonesAreFiledAsPhones(url);
    }
  }

  /** The default category is chosen exactly when no keyword occurs in the URL. */
  lemma DefaultCategory(url: string)
    ensures CategoryFromUrl(url) == Electronics
        <==> !Contains(url, "phone") && !Contains(url, "iphone") && !Contains(url, "samsung")
             && !Contains(url, "laptop") && !Contains(url, "notebook") && !Contains(url, "macbook")
             && !Contains(url, "headphone") && !Contains(url, "earphone") && !Contains(url, "earbud")
             && !Contains(url, "watch") && !Contains(url, "tablet") && !Contains(url, "ipad")
  {
  }

  // --------------------------------------------------------- search queries

  /** What `generate_search_queries` reads from `product_info`. `category` is `None` when the
      dictionary has no such key. */
  datatype ProductInfo = ProductInfo(name: string, category: Option<string>, specs: Dict<string, string>)

  function CategoryOr(info: ProductInfo): string
  {
    if info.category.Some? then info.category.value else Electronics
  }

  /** The queries in the order they are appended, before duplicates are dropped; `words` is
      `name.split()`. */
  function Candidates(words: seq<string>, info: ProductInfo): seq<string>
  {
    (if words != [] then [words[0]] else [])
    + (if CategoryOr(info) != Electronics then [CategoryOr(info)] else [])
    + [info.name] + KeySeq(info.specs)
  }

  /** The keys of a dictionary are the elements of its key list. */
  lemma KeySeqKeys<K, V>(d: seq<(K, V)>)
    ensures forall k :: k in Keys(d) <==> k in KeySeq(d)
  {
    forall k ensures k in Keys(d) <==> k in KeySeq(d) {
      KeysIndex(d, k);
      if k in KeySeq(d) {
        var i :| 0 <= i < |KeySeq(d)| && KeySeq(d)[i] == k;
      }
    }
  }

  /** A word is a candidate exactly when it is the brand (the first word of the name), the
      category (when not the default), the name or a spec key. */
  lemma CandidatesSpec(words: seq<string>, info: ProductInfo, q: string)
    ensures q in Candidates(words, info)
        <==> (words != [] && q == words[0])
             || (CategoryOr(info) != Electronics && q == CategoryOr(info))
             || q == info.name
             || q in Keys(info.specs)
  {
    KeySeqKeys(info.specs);
  }

  /** `generate_search_queries`: the candidates with duplicates removed. Python returns
      `list(set(queries))`, in an order it does not specify; this method keeps first
      appearances, and its contract states only what holds in every order. */
  method GenerateSearchQueries(info: ProductInfo) returns (queries: seq<string>)
    ensures Distinct(queries)
    ensures forall q :: q in queries <==> q in Candidates(SplitWs(info.name), info)
  {
    var all := QueryList(info);
    queries := Unique(all);
  }

  /** The appends of `generate_search_queries`, before `list(set(...))`. */
  method QueryList(info: ProductInfo) returns (all: seq<string>)
    ensures all == Candidates(SplitWs(info.name), info)
  {
    all := [];
    var nameParts := SplitWs(info.name);
    ghost var brand := if nameParts != [] then [nameParts[0]] else [];
    if nameParts != [] {
      all := all + [nameParts[0]];
    }
    assert all == brand;
    var category := CategoryOr(info);
    ghost var kind := if category != Electronics then [category] else [];
    if category != Electronics {
      all := all + [category];
    }
    assert all == brand + kind;
    all := all + [info.name];
    all := AppendKeys(all, info.specs);
    assert all == brand + kind + [info.name] + KeySeq(info.specs);
  }

  /** The loop that appends every spec name, in dictionary order, to the queries. */
  method AppendKeys(all: seq<string>, specs: Dict<string, string>) returns (r: seq<string>)
    ensures r == all + KeySeq(specs)
  {
    r := all;
    var i := 0;
    while i < |specs|
      invariant 0 <= i <= |specs|
      invariant r == all + KeySeq(specs)[..i]
    {
      assert KeySeq(specs)[..i + 1] == KeySeq(specs)[..i] + [specs[i].0];
      r := r + [specs[i].0];
      i := i + 1;
    }
    assert KeySeq(specs)[..i] == KeySeq(specs);
  }

  /** `list(set(xs))`, keeping first appearances. */
  method Unique(xs: seq<string>) returns (r: seq<string>)
    ensures r == AddNew([], xs)
  {
    r := [];
    var i := 0;
    while i < |xs|
      invariant 0 <= i <= |xs|
      invariant r == AddNew([], xs[..i])
    {
      assert xs[..i + 1][..i] == xs[..i];
      if xs[i] !in r {
        r := r + [xs[i]];
      }
      i := i + 1;
    }
    assert xs[..|xs|] == xs;
  }

  // ------------------------------------------------------------ search URLs

  /** The search address of each supported platform. */
  function BaseUrl(platform: string): Option<string>
  {
    if platform == "momo" then Some("https://www.momoshop.com.tw/search/searchShop.php?keyword=")
    else if platform == "pchome" then Some("https://www.pchome.com.tw/search/?q=")
    else if platform == "shopee" then Some("https://shopee.tw/search?keyword=")
    else None
  }

  /** `build_search_urls`: one link for each of the first three queries, or none for an
      unknown platform. */
  method BuildSearchUrls(info: ProductInfo, platform: string) returns (urls: seq<string>)
    ensures BaseUrl(platform).None? ==> urls == []
    ensures |urls| <= 3
    ensures BaseUrl(platform).Some? ==>
      exists queries ::
        Distinct(queries) && (forall q :: q in queries <==> q in Candidates(SplitWs(info.name), info))
        && |urls| == (if |queries| < 3 then |queries| else 3)
        && forall i :: 0 <= i < |urls| ==> urls[i] == BaseUrl(platform).value + queries[i]
  {
    var queries := GenerateSearchQueries(info);
    urls := [];
    var base := BaseUrl(platform);
    if base.Some? {
      urls := Links(base.value, queries);
    }
  }

  /** The loop of `build_search_urls` that makes one link per query of the first three,
      the platform's base followed by the query. */
  method Links(base: string, queries: seq<string>) returns (urls: seq<string>)
    ensures |urls| == if |queries| < 3 then |queries| else 3
    ensures forall i :: 0 <= i < |urls| ==> urls[i] == base + queries[i]
  {
    var top := if |queries| < 3 then queries else queries[..3];
    urls := [];
    for i := 0 to |top|
      invariant |urls| == i
      invariant forall j :: 0 <= j < i ==> urls[j] == base + queries[j]
    {
      urls := urls + [base + top[i]];
    }
  }

  // ----------------------------------------------------------------- prices

  /** The characters of `text` that are digits or belong to `extra`, in order. */
  function KeepDigitsAnd(text: string, extra: set<char>): (r: string)
    ensures forall c :: c in r ==> IsDigit(c) || c in extra
    ensures forall c :: c in r <==> c in text && (IsDigit(c) || c in extra)
  {
    if text == [] then []
    else (if IsDigit(text[0]) || text[0] in extra then [text[0]] else []) + KeepDigitsAnd(text[1..], extra)
  }

  /** `s.replace(c, '')`. */
  function RemoveChar(s: string, c: char): (r: string)
    ensures forall x :: x in r <==> x in s && x != c
  {
    if s == [] then [] else (if s[0] == c then [] else [s[0]]) + RemoveChar(s[1..], c)
  }

  /** Dropping the commas afterwards is the same as never keeping them. */
  lemma {:induction false} CommasDropped(text: string)
    ensures RemoveChar(KeepDigitsAnd(text, {'.', ','}), ',') == KeepDigitsAnd(text, {'.'})
  {
    if text != [] {
      CommasDropped(text[1..]);
      var head := if IsDigit(text[0]) || text[0] in {'.', ','} then [text[0]] else [];
      RemoveCharAppend(head, KeepDigitsAnd(text[1..], {'.', ','}), ',');
    }
  }

  lemma {:induction false} RemoveCharAppend(a: string, b: string, c: char)
    ensures RemoveChar(a + b, c) == RemoveChar(a, c) + RemoveChar(b, c)
  {
    if a == [] {
      assert a + b == b;
    } else {
      assert (a + b)[1..] == a[1..] + b;
      RemoveCharAppend(a[1..], b, c);
    }
  }

  /** Only digits and decimal points. */
  predicate PriceChars(s: string)
  {
    forall c :: c in s ==> IsDigit(c) || c == '.'
  }

  /** The parts of a string of digits and points, split at the points, are digit strings. */
  lemma DigitParts(s: string)
    requires PriceChars(s)
    ensures forall k :: 0 <= k < |SplitOn(s, '.')| ==> AllDigits(SplitOn(s, '.')[k])
  {
    forall k, c | 0 <= k < |SplitOn(s, '.')| && c in SplitOn(s, '.')[k] ensures IsDigit(c) {
      SplitOnChars(s, '.', k, c);
    }
  }

  /** The price text after the clean-up in `_extract_price` (keep digits, points and
      commas, drop the commas): digits and points, and when there were several points, the
      text before the first and after the last one, joined by a point. */
  function CleanPrice(text: string): (r: string)
  {
    MergePoints(KeepDigitsAnd(text, {'.'}))
  }

  /** A text with several points keeps the part before the first and the part after the
      last one, joined by a point; a text with at most one point is unchanged. */
  function MergePoints(s: string): string
  {
    if CountChar(s, '.') > 1 then
      var parts := SplitOn(s, '.');
      parts[0] + "." + parts[|parts| - 1]
    else s
  }

  /** The price clean-up of `_extract_price` as written, one reassignment of the
      price text after another. */
  method CleanPriceText(text: string) returns (priceStr: string)
    ensures priceStr == CleanPrice(text)
  {
    priceStr := KeepDigitsAnd(text, {'.', ','});
    priceStr := RemoveChar(priceStr, ',');
    CommasDropped(text);
    if CountChar(priceStr, '.') > 1 {
      var parts := SplitOn(priceStr, '.');
      priceStr := parts[0] + "." + parts[|parts| - 1];
    }
  }

  /** Some character of `s` is a digit. */
  predicate HasDigit(s: string)
  {
    exists c :: c in s && IsDigit(c)
  }

  /** What `float()` gives for a string of digits and points: a number when there is at most
      one point and at least one digit, an error otherwise. */
  function DecimalFloat(s: string): (r: Option<real>)
    requires PriceChars(s)
    ensures r.Some? <==> CountChar(s, '.') <= 1 && HasDigit(s)
    ensures r.Some? ==> 0.0 <= r.value
  {
    var parts := SplitOn(s, '.');
    DigitParts(s);
    PointParts(s);
    if |parts| == 1 then (if parts[0] == [] then None else Some(DecimalValue(parts[0]) as real))
    else if |parts| == 2 then
      (if parts[0] == [] && parts[1] == [] then None else Some(DecimalReal(parts[0], parts[1])))
    else None
  }

  /** A string of digits and points has a digit exactly when one of its at most two
      parts around the point is non-empty. */
  lemma PointParts(s: string)
    requires PriceChars(s)
    ensures |SplitOn(s, '.')| == CountChar(s, '.') + 1
    ensures |SplitOn(s, '.')| == 1 ==> (SplitOn(s, '.')[0] != [] <==> HasDigit(s))
    ensures |SplitOn(s, '.')| == 2 ==> (SplitOn(s, '.')[0] != [] || SplitOn(s, '.')[1] != [] <==> HasDigit(s))
  {
    SplitOnCount(s, '.');
    DigitParts(s);
    var parts := SplitOn(s, '.');
    if |parts| == 1 {
      OnePointSplit(s);
      if s != [] {
        assert s[0] in parts[0] && IsDigit(s[0]);
      }
    } else if |parts| == 2 {
      OnePointSplit(s);
      var a, b := parts[0], parts[1];
      assert s == a + "." + b;
      if a != [] {
        assert s[0] == a[0] && IsDigit(a[0]);
      }
      if b != [] {
        assert s[|a| + 1] == b[0] && IsDigit(b[0]);
      }
      if HasDigit(s) {
        var c :| c in s && IsDigit(c);
        assert c in a || c in b;
      }
    }
  }

  /** The clean-up leaves digits and at most one point. */
  lemma CleanPriceSpec(text: string)
    ensures PriceChars(CleanPrice(text))
    ensures CountChar(CleanPrice(text), '.') <= 1
    ensures CountChar(KeepDigitsAnd(text, {'.'}), '.') <= 1 ==> CleanPrice(text) == KeepDigitsAnd(text, {'.'})
  {
    var s := KeepDigitsAnd(text, {'.'});
    if CountChar(s, '.') > 1 {
      var parts := SplitOn(s, '.');
      var a := parts[0];
      var b := parts[|parts| - 1];
      DigitParts(s);
      PointJoin(a, b);
    }
  }

  /** Two digit strings joined by a point are digits and exactly one point. */
  lemma PointJoin(a: string, b: string)
    requires AllDigits(a) && AllDigits(b)
    ensures PriceChars(a + "." + b) && CountChar(a + "." + b, '.') == 1
  {
    assert forall c :: c in a ==> IsDigit(c);
    assert forall c :: c in b ==> IsDigit(c);
    CountCharAppend(a + ".", b, '.');
    CountCharAppend(a, ".", '.');
    CountCharNone(a, '.');
    CountCharNone(b, '.');
  }

  /** The points of the clean text are all in one place: there is at most one part after it. */
  lemma {:induction false} OnePointSplit(s: string)
    requires PriceChars(s) && CountChar(s, '.') <= 1
    ensures |SplitOn(s, '.')| == CountChar(s, '.') + 1
    ensures CountChar(s, '.') == 1 ==> s == SplitOn(s, '.')[0] + "." + SplitOn(s, '.')[1]
    ensures CountChar(s, '.') == 0 ==> SplitOn(s, '.') == [s]
  {
    SplitOnCount(s, '.');
    SplitOnJoin(s, '.');
    var parts := SplitOn(s, '.');
    if |parts| == 2 {
      assert Join(parts, ".") == parts[0] + "." + Join(parts[1..], ".");
    } else {
      assert Join(parts, ".") == parts[0];
    }
  }

  /** The conversion to a number never fails on a cleaned price that is neither empty nor
      a lone point, the two texts `_extract_price` refuses before converting. */
  lemma CleanPriceParses(text: string)
    requires CleanPrice(text) != [] && CleanPrice(text) != "."
    ensures PriceChars(CleanPrice(text)) && DecimalFloat(CleanPrice(text)).Some?
  {
    var s := CleanPrice(text);
    CleanPriceSpec(text);
    OnePointSplit(s);
  }

  /** The price `_extract_price` takes from a price text: the number the cleaned
      text denotes, kept only when it is positive. */
  function PriceFromText(text: string): (r: Option<real>)
    ensures r.Some? ==> r.value > 0.0
  {
    var s := CleanPrice(text);
    CleanPriceSpec(text);
    if s != [] && s != "." then
      match DecimalFloat(s)
      case None => None
      case Some(p) => if p > 0.0 then Some(p) else None
    else None
  }

  /** The selector loop of `_extract_price`: the texts of the elements its selectors find,
      in selector order; the first positive price wins and 0 is the fallback, so 0 comes
      back exactly when no text gives a price. */
  method ExtractPrice(texts: seq<string>) returns (price: real)
    ensures 0.0 <= price
    ensures (exists i :: 0 <= i < |texts| && PriceFromText(texts[i]) == Some(price)
               && forall j :: 0 <= j < i ==> PriceFromText(texts[j]).None?)
         || (price == 0.0 && forall i :: 0 <= i < |texts| ==> PriceFromText(texts[i]).None?)
    ensures price == 0.0 <==> forall i :: 0 <= i < |texts| ==> PriceFromText(texts[i]).None?
  {
    var found := FirstRead(texts, PriceFromText);
    price := if found.Some? then found.value else 0.0;
  }

  /** A loop over the texts that returns the first reading `read` accepts. */
  method FirstRead(texts: seq<string>, read: string -> Option<real>) returns (found: Option<real>)
    ensures found.None? <==> forall i :: 0 <= i < |texts| ==> read(texts[i]).None?
    ensures found.Some? ==> exists i :: 0 <= i < |texts| && read(texts[i]) == found
                                        && forall j :: 0 <= j < i ==> read(texts[j]).None?
  {
    var i := 0;
    while i < |texts|
      invariant 0 <= i <= |texts|
      invariant forall j :: 0 <= j < i ==> read(texts[j]).None?
    {
      var r := read(texts[i]);
      if r.Some? {
        assert read(texts[i]) == r;
        return r;
      }
      i := i + 1;
    }
    return None;
  }

  // ---------------------------------------------------------------- ratings

  /** The rating `_extract_rating` takes from one element's text: its digits and points,
      read as a number, if that succeeds and the number lies in [0, 5]. */
  function RatingFromText(text: string): (r: Option<real>)
    ensures r.Some? ==> 0.0 <= r.value <= 5.0
  {
    var numbers := KeepDigitsAnd(text, {'.'});
    if numbers == [] then None
    else
      match DecimalFloat(numbers)
      case None => None
      case Some(x) => if 0.0 <= x <= 5.0 then Some(x) else None
  }

  /** Text of digits and points is kept whole. */
  lemma KeepPriceText(s: string)
    requires PriceChars(s)
    ensures KeepDigitsAnd(s, {'.'}) == s
  {
    forall i | 0 <= i < |s| ensures IsDigit(s[i]) || s[i] in {'.'} {
      assert s[i] in s;
    }
    KeepAll(s, {'.'});
  }

  /** Text made only of kept characters is kept whole. */
  lemma {:induction false} KeepAll(s: string, extra: set<char>)
    requires forall i :: 0 <= i < |s| ==> IsDigit(s[i]) || s[i] in extra
    ensures KeepDigitsAnd(s, extra) == s
  {
    if s != [] {
      assert IsDigit(s[0]) || s[0] in extra;
      assert forall i :: 0 <= i < |s[1..]| ==> s[1..][i] == s[i + 1];
      KeepAll(s[1..], extra);
      assert [s[0]] + s[1..] == s;
    }
  }

  /** Keeping characters distributes over concatenation. */
  lemma {:induction false} KeepAppend(a: string, b: string, extra: set<char>)
    ensures KeepDigitsAnd(a + b, extra) == KeepDigitsAnd(a, extra) + KeepDigitsAnd(b, extra)
  {
    if a == [] {
      assert a + b == b;
    } else {
      assert (a + b)[0] == a[0] && (a + b)[1..] == a[1..] + b;
      KeepAppend(a[1..], b, extra);
    }
  }

  /** "4.5" converts to 4.5. */
  lemma FourPointFive()
    ensures PriceChars("4.5") && DecimalFloat("4.5") == Some(4.5)
  {
    var n := "4.5";
    assert '.' in n && IndexOf(n, '.') == 1;
    assert n[..1] == "4" && n[2..] == "5" && '.' !in "5";
    assert SplitOn(n, '.') == ["4", "5"];
    assert Fraction("5") == 0.5 by {
      assert "5"[1..] == "";
    }
    assert DecimalValue("4") == 4 by {
      assert "4"[..0] == "";
    }
  }

  /** A text whose digits and points read as a number in [0, 5] is rated that number. */
  lemma RatingOfNumbers(text: string, n: string, x: real)
    requires KeepDigitsAnd(text, {'.'}) == n && n != [] && DecimalFloat(n) == Some(x) && 0.0 <= x <= 5.0
    ensures RatingFromText(text) == Some(x)
  {
  }

  /** A rating text with a unit reads as its number. */
  lemma RatingWithUnit()
    ensures RatingFromText("4.5分") == Some(4.5)
  {
    var n, u := "4.5", "分";
    assert "4.5分" == n + u;
    KeepAppend(n, u, {'.'});
    KeepPriceText(n);
    assert KeepDigitsAnd(u, {'.'}) == "";
    FourPointFive();
    RatingOfNumbers(n + u, n, 4.5);
  }

  /** "4.5.1" has two points. */
  lemma TwoPoints()
    ensures PriceChars("4.5.1") && CountChar("4.5.1", '.') == 2
  {
    assert "4.5.1" == "4.5" + ".1";
    CountCharAppend("4.5", ".1", '.');
    assert "4.5" == "4" + ".5";
    CountCharAppend("4", ".5", '.');
  }

  /** A text with two points does not convert. */
  lemma RatingTwoPoints()
    ensures RatingFromText("4.5.1").None?
  {
    TwoPoints();
    KeepPriceText("4.5.1");
  }

  /** A text without a digit does not convert. */
  lemma RatingWithoutDigit()
    ensures RatingFromText(".").None?
    ensures RatingFromText("五顆星").None?
  {
    assert KeepDigitsAnd(".", {'.'}) == ".";
    assert !HasDigit(".");
    var t := "五顆星";
    assert t[1..] == "顆星" && t[1..][1..] == "星" && t[1..][1..][1..] == "";
    assert KeepDigitsAnd(t, {'.'}) == "";
  }

  /** `_extract_rating`: the texts of the elements its selectors find, in selector order; the
      first acceptable rating wins and 0 is the fallback. */
  method ExtractRating(texts: seq<string>) returns (rating: real)
    ensures 0.0 <= rating <= 5.0
    ensures (exists i :: 0 <= i < |texts| && RatingFromText(texts[i]) == Some(rating)
               && forall j :: 0 <= j < i ==> RatingFromText(texts[j]).None?)
         || (rating == 0.0 && forall i :: 0 <= i < |texts| ==> RatingFromText(texts[i]).None?)
  {
    var found := FirstRead(texts, RatingFromText);
    rating := if found.Some? then found.value else 0.0;
  }
}
