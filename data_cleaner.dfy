/** The normaliser: cleans raw product records into the canonical record shape and
    builds the common-feature index (utils/data_cleaner.py, class `DataCleaner`). */
module DataCleaner {
  import opened Strings
  import opened Dicts

  // ------------------------------------------------------------ data model

  /** A Python value met in a raw field. */
  datatype Value =
    | Str(s: string)               // a `str`
    | Num(x: real, shown: string)  // an `int` or `float`; `shown` is what `str()` prints for it
    | Other(shown: string)         // any other object; `shown` is `str(value)`

  /** `str(value)`. */
  function Show(v: Value): string
  {
    match v
    case Str(s) => s
    case Num(_, shown) => shown
    case Other(shown) => shown
  }

  /** A scraped record; every field may be missing (`None` here). */
  datatype RawProduct = RawProduct(
    url: Option<string>,
    name: Option<Value>,
    price: Option<Value>,
    rating: Option<Value>,
    specs: Option<Dict<string, Value>>,
    reviews: Option<seq<string>>)

  /** A cleaned record, the input of every later stage. */
  datatype Product = Product(
    url: string,
    name: string,
    price: real,
    specs: Dict<string, string>,
    reviews: seq<string>,
    rating: real)

  /** The urls of the products, in order. */
  function Urls(ps: seq<Product>): (r: seq<string>)
    ensures |r| == |ps| && forall i :: 0 <= i < |ps| ==> r[i] == ps[i].url
  {
    seq(|ps|, i requires 0 <= i < |ps| => ps[i].url)
  }

  function OrElse<T>(o: Option<T>, default: T): T
  {
    match o
    case Some(v) => v
    case None => default
  }

  // ------------------------------------------------------- normalize_value

  /** `\w` (ASCII letters, digits and `_`). */
  predicate IsWordChar(c: char) { IsAsciiLetter(c) || IsDigit(c) || c == '_' }

  /** The characters `[\w\s一-鿿\.\-]` keeps. */
  predicate IsKept(c: char)
  {
    IsWordChar(c) || IsSpace(c) || '\U{4E00}' <= c <= '\U{9FFF}' || c == '.' || c == '-'
  }

  /** The first clean-up of `normalize_value`: keeps word characters, white space, CJK
      ideographs, points and hyphens, and drops everything else. */
  function KeepChars(s: string): string
  {
    if s == [] then [] else (if IsKept(s[0]) then [s[0]] else []) + KeepChars(s[1..])
  }

  /** `s` with its white space removed; used to state what cleaning keeps. */
  function DropSpaces(s: string): string
  {
    if s == [] then [] else (if IsSpace(s[0]) then [] else [s[0]]) + DropSpaces(s[1..])
  }

  predicate AllKept(s: string) { forall i :: 0 <= i < |s| ==> IsKept(s[i]) }

  /** The only white space left is the plain space. */
  predicate PlainSpaces(s: string) { forall i :: 0 <= i < |s| ==> IsSpace(s[i]) ==> s[i] == ' ' }

  /** `normalize_value`: collapses white space, drops characters outside the kept class
      and strips the ends. Non-strings come back as `str(value)`. Every non-space
      character the input has in the kept class survives, in order, and nothing else. */
  function NormalizeValue(v: Value): (r: string)
    ensures !v.Str? ==> r == Show(v)
    ensures v.Str? ==> AllKept(r) && PlainSpaces(r)
    ensures v.Str? ==> r == [] || (!IsSpace(r[0]) && !IsSpace(r[|r| - 1]))
    ensures v.Str? ==> DropSpaces(r) == KeepChars(DropSpaces(v.s))
  {
    match v
    case Str(s) =>
      var collapsed := Join(SplitWs(s), " ");
      var kept := KeepChars(collapsed);
      var r := Strip(kept);
      CollapseKeepsNonSpace(s);
      JoinPlain(SplitWs(s));
      KeepCharsProps(collapsed);
      DropKeepCommute(collapsed);
      StripDrop(kept);
      StripKeeps(kept);
      r
    case _ => Show(v)
  }

  lemma {:induction false} DropSpacesAppend(a: string, b: string)
    ensures DropSpaces(a + b) == DropSpaces(a) + DropSpaces(b)
  {
    if a != [] {
      assert (a + b)[0] == a[0];
      assert (a + b)[1..] == a[1..] + b;
      DropSpacesAppend(a[1..], b);
      var h := if IsSpace(a[0]) then [] else [a[0]];
      assert DropSpaces(a + b) == h + DropSpaces(a[1..] + b);
      assert DropSpaces(a) == h + DropSpaces(a[1..]);
    } else {
      assert a + b == b;
    }
  }

  lemma {:induction false} DropSpacesOfNoSpace(s: string)
    requires NoSpace(s)
    ensures DropSpaces(s) == s
  {
    if s != [] {
      DropSpacesOfNoSpace(s[1..]);
    }
  }

  lemma {:induction false} DropSpacesOfSpaces(s: string)
    requires forall i :: 0 <= i < |s| ==> IsSpace(s[i])
    ensures DropSpaces(s) == []
  {
    if s != [] {
      DropSpacesOfSpaces(s[1..]);
    }
  }

  function Concat(parts: seq<string>): string
  {
    if parts == [] then [] else parts[0] + Concat(parts[1..])
  }

  lemma DropSpacesLStrip(s: string)
    ensures DropSpaces(s) == DropSpaces(LStrip(s))
  {
    var t := LStrip(s);
    assert s == s[..|s| - |t|] + t;
    DropSpacesAppend(s[..|s| - |t|], t);
    DropSpacesOfSpaces(s[..|s| - |t|]);
  }

  lemma DropSpacesWord(t: string)
    ensures DropSpaces(t) == t[..WordLen(t)] + DropSpaces(t[WordLen(t)..])
  {
    var n := WordLen(t);
    assert t == t[..n] + t[n..];
    DropSpacesAppend(t[..n], t[n..]);
    DropSpacesOfNoSpace(t[..n]);
  }

  lemma {:induction false} DropSpacesSplit(s: string)
    ensures DropSpaces(s) == Concat(SplitWs(s))
    decreases |s|
  {
    var t := LStrip(s);
    DropSpacesLStrip(s);
    if t != [] {
      var n := WordLen(t);
      DropSpacesWord(t);
      DropSpacesSplit(t[n..]);
      assert SplitWs(s) == [t[..n]] + SplitWs(t[n..]);
    }
  }

  lemma {:induction false} DropSpacesJoin(parts: seq<string>)
    requires forall k :: 0 <= k < |parts| ==> NoSpace(parts[k])
    ensures DropSpaces(Join(parts, " ")) == Concat(parts)
  {
    if |parts| == 1 {
      DropSpacesOfNoSpace(parts[0]);
      assert Concat(parts) == parts[0] + Concat([]);
    } else if |parts| > 1 {
      DropSpacesJoin(parts[1..]);
      DropSpacesAppend(parts[0] + " ", Join(parts[1..], " "));
      DropSpacesAppend(parts[0], " ");
      DropSpacesOfNoSpace(parts[0]);
    }
  }

  /** Collapsing white space keeps every non-space character. */
  lemma CollapseKeepsNonSpace(s: string)
    ensures DropSpaces(Join(SplitWs(s), " ")) == DropSpaces(s)
  {
    DropSpacesSplit(s);
    DropSpacesJoin(SplitWs(s));
  }

  /** Joining space-free words with single spaces leaves only plain spaces. */
  lemma {:induction false} JoinPlain(parts: seq<string>)
    requires forall k :: 0 <= k < |parts| ==> NoSpace(parts[k])
    ensures PlainSpaces(Join(parts, " "))
  {
    if |parts| > 1 {
      JoinPlain(parts[1..]);
      var j := parts[0] + " " + Join(parts[1..], " ");
      forall i | 0 <= i < |j| && IsSpace(j[i]) ensures j[i] == ' ' {
        if i > |parts[0]| {
          assert j[i] == Join(parts[1..], " ")[i - |parts[0]| - 1];
        }
      }
    }
  }

  lemma {:induction false} KeepCharsProps(s: string)
    ensures AllKept(KeepChars(s))
    ensures PlainSpaces(s) ==> PlainSpaces(KeepChars(s))
  {
    if s != [] {
      KeepCharsProps(s[1..]);
      if PlainSpaces(s) {
        assert PlainSpaces(s[1..]) by {
          forall i | 0 <= i < |s[1..]| ensures IsSpace(s[1..][i]) ==> s[1..][i] == ' ' {
            assert s[1..][i] == s[i + 1];
          }
        }
      }
    }
  }

  lemma {:induction false} KeepCharsAppend(a: string, b: string)
    ensures KeepChars(a + b) == KeepChars(a) + KeepChars(b)
  {
    if a != [] {
      assert (a + b)[0] == a[0];
      assert (a + b)[1..] == a[1..] + b;
      KeepCharsAppend(a[1..], b);
      var h := if IsKept(a[0]) then [a[0]] else [];
      assert KeepChars(a + b) == h + KeepChars(a[1..] + b);
      assert KeepChars(a) == h + KeepChars(a[1..]);
    } else {
      assert a + b == b;
    }
  }

  lemma {:induction false} DropKeepCommute(s: string)
    ensures DropSpaces(KeepChars(s)) == KeepChars(DropSpaces(s))
  {
    if s != [] {
      DropKeepCommute(s[1..]);
      var h := if IsKept(s[0]) then [s[0]] else [];
      var g := if IsSpace(s[0]) then [] else [s[0]];
      DropSpacesAppend(h, KeepChars(s[1..]));
      KeepCharsAppend(g, DropSpaces(s[1..]));
      assert DropSpaces(h) == KeepChars(g);
    }
  }

  lemma DropSpacesRStrip(s: string)
    ensures DropSpaces(s) == DropSpaces(RStrip(s))
  {
    var r := RStrip(s);
    assert s == r + s[|r|..];
    DropSpacesAppend(r, s[|r|..]);
    assert forall i :: 0 <= i < |s[|r|..]| ==> s[|r|..][i] == s[|r| + i];
    DropSpacesOfSpaces(s[|r|..]);
  }

  /** Both properties of the cleaned text survive taking a part of it. */
  lemma SliceKeeps(s: string, a: nat, b: nat)
    requires a <= b <= |s|
    ensures AllKept(s) ==> AllKept(s[a..b])
    ensures PlainSpaces(s) ==> PlainSpaces(s[a..b])
  {
    assert forall i :: 0 <= i < b - a ==> s[a..b][i] == s[a + i];
  }

  lemma StripDrop(s: string)
    ensures DropSpaces(Strip(s)) == DropSpaces(s)
  {
    DropSpacesLStrip(s);
    DropSpacesRStrip(LStrip(s));
  }

  /** `strip()` returns a part of its argument. */
  lemma StripIsSlice(s: string) returns (a: nat, b: nat)
    ensures a <= b <= |s| && Strip(s) == s[a..b]
  {
    var l := LStrip(s);
    var r := RStrip(l);
    a, b := |s| - |l|, |s| - |l| + |r|;
    assert r == s[a..][..|r|];
  }

  lemma StripKeeps(s: string)
    ensures AllKept(s) ==> AllKept(Strip(s))
    ensures PlainSpaces(s) ==> PlainSpaces(Strip(s))
  {
    var a, b := StripIsSlice(s);
    SliceKeeps(s, a, b);
  }

  // ------------------------------------------------------- extract_numeric

  predicate NoDigits(s: string) { forall i :: 0 <= i < |s| ==> !IsDigit(s[i]) }

  /** The number `\d+\.?\d*` matches at the start of `s`, which begins with a digit. */
  function NumberAt(s: string): (r: real)
    requires |s| > 0 && IsDigit(s[0])
    ensures r >= 0.0
  {
    var n := DigitRun(s);
    if n < |s| && s[n] == '.' then
      var f := DigitRun(s[n + 1..]);
      DecimalReal(s[..n], s[n + 1..][..f])
    else DecimalValue(s[..n]) as real
  }

  /** The first number in `s` (digits, optionally a point and more digits) as `extract_numeric`
      reads it, or `0.0` when `s` has no digit. */
  function FirstNumber(s: string): (r: real)
    ensures r >= 0.0
    ensures NoDigits(s) ==> r == 0.0
  {
    if s == [] then 0.0
    else if IsDigit(s[0]) then NumberAt(s)
    else FirstNumber(s[1..])
  }

  /** `extract_numeric`: numbers come back unchanged, anything else is searched as text. */
  function ExtractNumeric(v: Value): (r: real)
    ensures v.Num? ==> r == v.x
    ensures !v.Num? ==> r >= 0.0
    ensures !v.Num? && NoDigits(Show(v)) ==> r == 0.0
  {
    match v
    case Num(x, _) => x
    case _ => FirstNumber(Show(v))
  }

  /** A string that starts with a run of digits not followed by a point reads as that run. */
  lemma FirstNumberIntegerAt(d: string, t: string)
    requires d != [] && AllDigits(d)
    requires t == [] || (!IsDigit(t[0]) && t[0] != '.')
    ensures FirstNumber(d + t) == DecimalValue(d) as real
  {
    DigitRunOf(d, t);
    assert (d + t)[..|d|] == d;
  }

  /** The first run of digits, not followed by a point, decides the number. */
  lemma {:induction false} FirstNumberInteger(p: string, d: string, t: string)
    requires NoDigits(p) && d != [] && AllDigits(d)
    requires t == [] || (!IsDigit(t[0]) && t[0] != '.')
    ensures FirstNumber(p + d + t) == DecimalValue(d) as real
  {
    if p == [] {
      assert p + d + t == d + t;
      FirstNumberIntegerAt(d, t);
    } else {
      assert (p + d + t)[1..] == p[1..] + d + t;
      FirstNumberInteger(p[1..], d, t);
    }
  }

  /** A string that starts with digits, a point and more digits reads as that decimal. */
  lemma FirstNumberDecimalAt(d: string, f: string, t: string)
    requires d != [] && AllDigits(d) && AllDigits(f)
    requires t == [] || !IsDigit(t[0])
    ensures FirstNumber(d + ['.'] + (f + t)) == DecimalReal(d, f)
  {
    var s := d + ['.'] + (f + t);
    DigitRunOf(d, ['.'] + (f + t));
    assert s == d + (['.'] + (f + t));
    assert s[..|d|] == d;
    assert s[|d|] == '.';
    assert s[|d| + 1..] == f + t;
    DigitRunOf(f, t);
    assert (f + t)[..|f|] == f;
  }

  /** A point after the first run of digits takes the following digits as the fraction. */
  lemma {:induction false} FirstNumberDecimal(p: string, d: string, f: string, t: string)
    requires NoDigits(p) && d != [] && AllDigits(d) && AllDigits(f)
    requires t == [] || !IsDigit(t[0])
    ensures FirstNumber(p + d + "." + f + t) == DecimalReal(d, f)
  {
    if p == [] {
      assert p + d + "." + f + t == d + ['.'] + (f + t);
      FirstNumberDecimalAt(d, f, t);
    } else {
      assert (p + d + "." + f + t)[1..] == p[1..] + d + "." + f + t;
      FirstNumberDecimal(p[1..], d, f, t);
    }
  }

  /** The example of the program's own self-test: "記憶體: 16GB" gives 16. */
  lemma ExtractNumericMemoryExample()
    ensures ExtractNumeric(Str("記憶體: 16GB")) == 16.0
  {
    assert "記憶體: 16GB" == "記憶體: " + "16" + "GB";
    assert DecimalValue("16") == 16 by {
      assert "16"[..1] == "1";
      assert "1"[..0] == "";
    }
    FirstNumberInteger("記憶體: ", "16", "GB");
  }

  // -------------------------------------------------------- normalize_unit

  /** `UNIT_CONVERSIONS`, in the order Python iterates it. */
  const UnitTable: seq<(string, real)> :=
    [("GB", 1.0), ("TB", 1024.0), ("MB", 0.001), ("kg", 1.0), ("g", 0.001), ("lbs", 0.453592)]

  /** The conversion factor the unit table gives `unit`, 1 for a unit it lacks. */
  function ConversionFactor(unit: string): (r: real)
    ensures r > 0.0
  {
    if unit in Keys(UnitTable) then
      GetMember(UnitTable, unit);
      Get(UnitTable, unit)
    else 1.0
  }

  /** The table's weight keys are lower-case, but the detected unit is upper-cased
      before the lookup, so no weight unit is ever converted. */
  lemma WeightUnitsAreNotConverted()
    ensures ConversionFactor(Upper("kg")) == 1.0
    ensures ConversionFactor(Upper("g")) == 1.0 && ConversionFactor("g") == 0.001
    ensures ConversionFactor(Upper("lbs")) == 1.0 && ConversionFactor("lbs") == 0.453592
  {
    assert Upper("kg") == "KG";
    assert Upper("g") == "G";
    assert Upper("lbs") == "LBS";
  }

  datatype UnitReading = UnitReading(value: real, unit: string, normalizedValue: real)

  /** The upper-cased unit at table position `i` occurs in `text` and none before it does. */
  predicate FirstUnitAt(text: string, i: int)
  {
    0 <= i < |UnitTable|
    && Contains(text, Upper(UnitTable[i].0))
    && forall j :: 0 <= j < i ==> !Contains(text, Upper(UnitTable[j].0))
  }

  /** The upper-cased name of the first table unit, from position `i` on, that occurs in `text`. */
  function DetectUnitFrom(text: string, i: nat): Option<string>
    decreases |UnitTable| - i
  {
    if i >= |UnitTable| then None
    else if Contains(text, Upper(UnitTable[i].0)) then Some(Upper(UnitTable[i].0))
    else DetectUnitFrom(text, i + 1)
  }

  /** The factor taking a quantity in unit `detected` to the unit `target` names. */
  function ConversionRatio(detected: string, target: string): (r: real)
    ensures r > 0.0
  {
    ConversionFactor(detected) / ConversionFactor(Upper(target))
  }

  /** The quantity `x`, given in unit `detected`, expressed in the unit `target` names. */
  function Convert(x: real, detected: string, target: string): real
  {
    x * ConversionRatio(detected, target)
  }

  /** The reading `normalize_unit` reports for the upper-cased text `text`. */
  function TextReading(text: string, target: Option<string>): UnitReading
  {
    var numeric := FirstNumber(text);
    var detected := DetectUnitFrom(text, 0);
    UnitReading(
      numeric,
      if detected.Some? then detected.value else "unknown",
      if detected.Some? && target.Some? && target.value != [] then
        Convert(numeric, detected.value, target.value)
      else numeric)
  }

  /** What `normalize_unit` returns: `str(value).upper()` is the text searched. */
  function UnitReadingOf(value: Value, target: Option<string>): UnitReading
  {
    TextReading(Upper(Show(value)), target)
  }

  /** The detected unit is the first table unit occurring in the text, if any. */
  lemma {:induction false} DetectUnitSpec(text: string, i: nat)
    requires i <= |UnitTable|
    requires forall j :: 0 <= j < i ==> !Contains(text, Upper(UnitTable[j].0))
    ensures DetectUnitFrom(text, i).None? <==>
              forall j :: 0 <= j < |UnitTable| ==> !Contains(text, Upper(UnitTable[j].0))
    ensures DetectUnitFrom(text, i).Some? ==>
              exists j :: FirstUnitAt(text, j) && DetectUnitFrom(text, i).value == Upper(UnitTable[j].0)
    decreases |UnitTable| - i
  {
    if i < |UnitTable| {
      if Contains(text, Upper(UnitTable[i].0)) {
        assert FirstUnitAt(text, i);
      } else {
        DetectUnitSpec(text, i + 1);
      }
    }
  }

  /** `normalize_unit` reports as unit the first table unit (upper-cased) occurring in
      the upper-cased text, and "unknown" exactly when there is none. */
  lemma UnitDetectionSpec(text: string, target: Option<string>)
    ensures TextReading(text, target).unit == "unknown" <==>
              forall i :: 0 <= i < |UnitTable| ==> !Contains(text, Upper(UnitTable[i].0))
    ensures TextReading(text, target).unit != "unknown" ==>
              exists i :: FirstUnitAt(text, i) && TextReading(text, target).unit == Upper(UnitTable[i].0)
  {
    DetectUnitSpec(text, 0);
    DetectedUnitIsShort(text, 0);
  }

  /** `normalize_unit` reports the first number in the upper-cased text, converted to
      `target` only when both a unit and a non-empty target are given. */
  lemma UnitConversionSpec(text: string, target: Option<string>)
    ensures TextReading(text, target).value == ExtractNumeric(Str(text))
    ensures TextReading(text, target).unit == "unknown" || target.None? || target.value == [] ==>
              TextReading(text, target).normalizedValue == TextReading(text, target).value
    ensures TextReading(text, target).unit != "unknown" && target.Some? && target.value != [] ==>
              TextReading(text, target).normalizedValue
              == Convert(TextReading(text, target).value, TextReading(text, target).unit, target.value)
  {
    DetectedUnitIsShort(text, 0);
  }

  /** Every unit name is at most three characters long, so none reads "unknown". */
  lemma {:induction false} DetectedUnitIsShort(text: string, i: nat)
    ensures DetectUnitFrom(text, i).Some? ==> |DetectUnitFrom(text, i).value| <= 3
    decreases |UnitTable| - i
  {
    if i < |UnitTable| && !Contains(text, Upper(UnitTable[i].0)) {
      DetectedUnitIsShort(text, i + 1);
    }
  }

  /** `normalize_unit`: the detection loop with its `break`, then the conversion. */
  method NormalizeUnit(value: Value, target: Option<string>) returns (r: UnitReading)
    ensures r == UnitReadingOf(value, target)
  {
    var text := Upper(Show(value));
    var numeric := ExtractNumeric(Str(text));
    var detected: Option<string> := None;
    var i := 0;
    while i < |UnitTable|
      invariant 0 <= i <= |UnitTable|
      invariant detected.None? ==> DetectUnitFrom(text, 0) == DetectUnitFrom(text, i)
      invariant detected.Some? ==> DetectUnitFrom(text, 0) == detected
    {
      if Contains(text, Upper(UnitTable[i].0)) {
        detected := Some(Upper(UnitTable[i].0));
        break;
      }
      i := i + 1;
    }
    var normalized := numeric;
    if detected.Some? && target.Some? && target.value != [] {
      normalized := Convert(numeric, detected.value, target.value);
    }
    var unit := if detected.Some? then detected.value else "unknown";
    r := UnitReading(numeric, unit, normalized);
  }

  // ------------------------------------------------ normalize_feature_name

  /** `FEATURE_MAPPING`, in the order Python iterates it. */
  const FeatureMapping: seq<(string, string)> := [
    ("處理器", "CPU"), ("processor", "CPU"), ("cpu", "CPU"),
    ("記憶體", "RAM"), ("memory", "RAM"), ("ram", "RAM"),
    ("儲存", "Storage"), ("storage", "Storage"),
    ("螢幕", "Screen"), ("display", "Screen"),
    ("電池", "Battery"), ("battery", "Battery"),
    ("重量", "Weight"), ("weight", "Weight"),
    ("品牌", "Brand"), ("brand", "Brand"),
    ("型號", "Model"), ("model", "Model")]

  /** The first table entry whose (lower-cased) key occurs in `n` gives the canonical name. */
  function FirstMapped(table: seq<(string, string)>, n: string): string
  {
    if table == [] then n
    else if Contains(n, Lower(table[0].0)) then table[0].1
    else FirstMapped(table[1..], n)
  }

  /** What `normalize_feature_name` returns. */
  function CanonicalName(name: string): string
  {
    FirstMapped(FeatureMapping, Strip(Lower(name)))
  }

  /** The table entry at `i` is the first whose key occurs in `n`. */
  predicate FirstMatchAt(table: seq<(string, string)>, n: string, i: int)
  {
    0 <= i < |table| && Contains(n, Lower(table[i].0))
    && forall j :: 0 <= j < i ==> !Contains(n, Lower(table[j].0))
  }

  /** First substring match wins. */
  lemma {:induction false} FirstMappedFirst(table: seq<(string, string)>, n: string, i: int)
    requires FirstMatchAt(table, n, i)
    ensures FirstMapped(table, n) == table[i].1
  {
    if i > 0 {
      assert !Contains(n, Lower(table[0].0));
      forall j | 0 <= j < i - 1 ensures !Contains(n, Lower(table[1..][j].0)) {
        assert table[1..][j] == table[j + 1];
      }
      assert table[1..][i - 1] == table[i];
      FirstMappedFirst(table[1..], n, i - 1);
    }
  }

  /** A name that no key occurs in comes back unchanged (lower-cased and stripped). */
  lemma {:induction false} FirstMappedNone(table: seq<(string, string)>, n: string)
    requires forall i :: 0 <= i < |table| ==> !Contains(n, Lower(table[i].0))
    ensures FirstMapped(table, n) == n
  {
    if table != [] {
      assert !Contains(n, Lower(table[0].0));
      forall j | 0 <= j < |table| - 1 ensures !Contains(n, Lower(table[1..][j].0)) {
        assert table[1..][j] == table[j + 1];
      }
      FirstMappedNone(table[1..], n);
    }
  }

  /** The synonyms of the program's self-test all map to "CPU": the Chinese name, */
  lemma CpuChineseName()
    ensures CanonicalName("處理器") == "CPU"
  {
    ChineseNameIsNormal();
    ChineseNameMatchesFirst();
  }

  lemma ChineseNameIsNormal()
    ensures Strip(Lower("處理器")) == "處理器"
  {
    assert Lower("處理器") == "處理器";
    StripNoEdge("處理器");
  }

  lemma ChineseNameMatchesFirst()
    ensures FirstMapped(FeatureMapping, "處理器") == "CPU"
  {
    assert Lower("處理器") == "處理器";
    assert IsPrefix("處理器", "處理器");
  }

  /** the upper-case and the lower-case English names. */
  lemma CpuEnglishName()
    ensures CanonicalName("CPU") == "CPU"
    ensures CanonicalName("cpu") == "CPU"
  {
    assert Strip(Lower("CPU")) == "cpu" && Strip(Lower("cpu")) == "cpu" by {
      assert Lower("CPU") == "cpu" && Lower("cpu") == "cpu";
      StripNoEdge("cpu");
    }
    FirstMappedCpu();
  }

  /** "cpu" passes over the first two keys of the table and stops at the third. */
  lemma FirstMappedCpu()
    ensures FirstMapped(FeatureMapping, "cpu") == "CPU"
  {
    var t, n := FeatureMapping, "cpu";
    assert t[0].0 == "處理器" && t[1].0 == "processor" && t[2] == ("cpu", "CPU");
    assert Lower("處理器") == "處理器" && Lower("processor") == "processor" && Lower(n) == n;
    ContainsHead(n, "處理器");
    ContainsHead(n, "processor");
    assert IsPrefix(n, n);
    assert t[1..][0] == t[1] && t[1..][1..] == t[2..];
    assert FirstMapped(t[2..], n) == "CPU";
    assert FirstMapped(t[1..], n) == "CPU";
  }

  /** `normalize_feature_name`: the first-match loop with its early return. */
  method NormalizeFeatureName(name: string) returns (r: string)
    ensures r == CanonicalName(name)
  {
    var n := Strip(Lower(name));
    var i := 0;
    while i < |FeatureMapping|
      invariant 0 <= i <= |FeatureMapping|
      invariant FirstMapped(FeatureMapping, n) == FirstMapped(FeatureMapping[i..], n)
    {
      if Contains(n, Lower(FeatureMapping[i].0)) {
        return FeatureMapping[i].1;
      }
      assert FeatureMapping[i..][1..] == FeatureMapping[i + 1..];
      i := i + 1;
    }
    r := n;
  }

  // --------------------------------------------------------- clean_product

  function CanonicalKeys(raw: seq<(string, Value)>): (r: seq<string>)
    ensures |r| == |raw| && forall i :: 0 <= i < |raw| ==> r[i] == CanonicalName(raw[i].0)
  {
    seq(|raw|, i requires 0 <= i < |raw| => CanonicalName(raw[i].0))
  }

  function NormalizedValues(raw: seq<(string, Value)>): (r: seq<string>)
    ensures |r| == |raw| && forall i :: 0 <= i < |raw| ==> r[i] == NormalizeValue(raw[i].1)
  {
    seq(|raw|, i requires 0 <= i < |raw| => NormalizeValue(raw[i].1))
  }

  /** The specs `clean_product` builds: each raw entry assigned under its canonical key. */
  function CleanSpecs(raw: seq<(string, Value)>): Dict<string, string>
  {
    ZipDict(CanonicalKeys(raw), NormalizedValues(raw))
  }

  /** What `clean_product` returns. */
  function Cleaned(p: RawProduct): Product
  {
    Product(
      OrElse(p.url, ""),
      NormalizeValue(OrElse(p.name, Str(""))),
      ExtractNumeric(OrElse(p.price, Num(0.0, "0"))),
      CleanSpecs(OrElse(p.specs, [])),
      OrElse(p.reviews, []),
      ExtractNumeric(OrElse(p.rating, Num(0.0, "0"))))
  }

  /** The cleaned specs have exactly the canonical names of the raw keys; when several raw
      keys share a canonical name, the one that comes last supplies the value. */
  lemma CleanedSpecs(p: RawProduct, i: int)
    requires p.specs.Some? && 0 <= i < |p.specs.value|
    requires forall j :: i < j < |p.specs.value| ==>
               CanonicalName(p.specs.value[j].0) != CanonicalName(p.specs.value[i].0)
    ensures CanonicalName(p.specs.value[i].0) in Keys(Cleaned(p).specs)
    ensures Get(Cleaned(p).specs, CanonicalName(p.specs.value[i].0)) == NormalizeValue(p.specs.value[i].1)
  {
    var raw := p.specs.value;
    ZipDictGet(CanonicalKeys(raw), NormalizedValues(raw), i);
  }

  /** Every cleaned key is the canonical name of some raw key. */
  lemma CleanedSpecKeys(p: RawProduct, k: string)
    requires k in Keys(Cleaned(p).specs)
    ensures p.specs.Some? && exists i :: 0 <= i < |p.specs.value| && k == CanonicalName(p.specs.value[i].0)
  {
    var keys := CanonicalKeys(OrElse(p.specs, []));
    assert k in keys;
  }

  /** `clean_product`: the field defaults and the spec loop. */
  method CleanProduct(p: RawProduct) returns (c: Product)
    ensures c == Cleaned(p)
  {
    var specs := CleanSpecEntries(OrElse(p.specs, []));
    c := Product(
      OrElse(p.url, ""),
      NormalizeValue(OrElse(p.name, Str(""))),
      ExtractNumeric(OrElse(p.price, Num(0.0, "0"))),
      specs,
      OrElse(p.reviews, []),
      ExtractNumeric(OrElse(p.rating, Num(0.0, "0"))));
  }

  /** The spec loop of `clean_product`: each raw entry is assigned under its canonical key,
      later entries overwriting earlier ones. */
  method CleanSpecEntries(raw: seq<(string, Value)>) returns (specs: Dict<string, string>)
    ensures specs == CleanSpecs(raw)
  {
    ghost var keys, vals := CanonicalKeys(raw), NormalizedValues(raw);
    specs := [];
    for i := 0 to |raw|
      invariant specs == ZipDict(keys[..i], vals[..i])
    {
      var key := NormalizeFeatureName(raw[i].0);
      var value := NormalizeValue(raw[i].1);
      ZipDictStep(keys, vals, i);
      specs := Put(specs, key, value);
    }
    assert keys[..|raw|] == keys && vals[..|raw|] == vals;
  }

  /** `clean_products`: one cleaned record per raw record, in the same order. */
  function CleanProducts(ps: seq<RawProduct>): (r: seq<Product>)
    ensures |r| == |ps|
    ensures forall i :: 0 <= i < |ps| ==> r[i] == Cleaned(ps[i])
  {
    if ps == [] then [] else [Cleaned(ps[0])] + CleanProducts(ps[1..])
  }

  // ----------------------------------------------- extract_common_features

  /** One step of the collecting loop: `all[f]` gets `v` appended (created empty first). */
  function AddValue(all: Dict<string, seq<string>>, f: string, v: string): Dict<string, seq<string>>
  {
    Put(all, f, GetOr(all, f, []) + [v])
  }

  /** The collecting loop over the entries of one product's specs. */
  function AddSpecs(all: Dict<string, seq<string>>, specs: seq<(string, string)>): Dict<string, seq<string>>
  {
    if specs == [] then all
    else
      var m := |specs| - 1;
      AddValue(AddSpecs(all, specs[..m]), specs[m].0, specs[m].1)
  }

  /** `all_features` after the nested loops over `ps`. */
  function AllFeatures(ps: seq<Product>): Dict<string, seq<string>>
  {
    if ps == [] then []
    else
      var n := |ps| - 1;
      AddSpecs(AllFeatures(ps[..n]), ps[n].specs)
  }

  /** The values `f` has across `ps`, in product order. */
  function ValuesOf(ps: seq<Product>, f: string): seq<string>
  {
    if ps == [] then []
    else
      var n := |ps| - 1;
      ValuesOf(ps[..n], f) + (if f in Keys(ps[n].specs) then [Get(ps[n].specs, f)] else [])
  }

  /** How many products of `ps` have the feature `f`. */
  function CountHaving(ps: seq<Product>, f: string): (c: nat)
    ensures c <= |ps|
  {
    if ps == [] then 0
    else
      var n := |ps| - 1;
      CountHaving(ps[..n], f) + (if f in Keys(ps[n].specs) then 1 else 0)
  }

  /** The comprehension keeping the features with at least `threshold` values. */
  function KeepFrequent(all: Dict<string, seq<string>>, threshold: real): (r: Dict<string, seq<string>>)
    ensures Keys(r) <= Keys(all)
    ensures forall f :: f in Keys(r) <==> f in Keys(all) && |Get(all, f)| as real >= threshold
    ensures forall f :: f in Keys(r) ==> Get(r, f) == Get(all, f)
  {
    if all == [] then []
    else
      var rest := KeepFrequent(all[1..], threshold);
      assert DistinctKeys(all[1..]);
      assert all[0].0 !in Keys(all[1..]) by {
        KeysIndex(all[1..], all[0].0);
        forall i | 0 <= i < |all[1..]| ensures all[1..][i].0 != all[0].0 {
          assert all[1..][i] == all[i + 1];
        }
      }
      if |all[0].1| as real >= threshold then
        ConsDistinct(all[0], rest);
        [all[0]] + rest
      else rest
  }

  /** What `extract_common_features` returns. */
  function CommonFeatures(ps: seq<Product>): Dict<string, seq<string>>
  {
    if ps == [] then [] else KeepFrequent(AllFeatures(ps), |ps| as real * 0.8)
  }

  lemma {:induction false} AddSpecsEffect(all: Dict<string, seq<string>>, specs: Dict<string, string>,
                                          f: string)
    ensures f in Keys(AddSpecs(all, specs)) <==> f in Keys(all) || f in Keys(specs)
    ensures f in Keys(AddSpecs(all, specs)) ==>
              Get(AddSpecs(all, specs), f)
              == GetOr(all, f, []) + (if f in Keys(specs) then [Get(specs, f)] else [])
  {
    if specs != [] {
      var m := |specs| - 1;
      var init: Dict<string, string> := specs[..m];
      assert specs == init + [specs[m]];
      AddSpecsEffect(all, init, f);
      assert specs[m].0 !in Keys(init) by {
        KeysIndex(init, specs[m].0);
      }
      KeysOfSnoc(init, specs[m]);
      if f == specs[m].0 {
        GetIndex(specs, m);
      } else if f in Keys(init) {
        GetSnoc(init, specs[m], f);
      }
    }
  }

  lemma {:induction false} KeysOfSnoc<K, V>(d: seq<(K, V)>, x: (K, V))
    ensures Keys(d + [x]) == Keys(d) + {x.0}
  {
    if d != [] {
      assert (d + [x])[1..] == d[1..] + [x];
      KeysOfSnoc(d[1..], x);
    }
  }

  lemma {:induction false} GetSnoc<K, V>(d: seq<(K, V)>, x: (K, V), k: K)
    requires k in Keys(d)
    ensures k in Keys(d + [x]) && Get(d + [x], k) == Get(d, k)
  {
    KeysOfSnoc(d, x);
    if d[0].0 != k {
      assert (d + [x])[1..] == d[1..] + [x];
      GetSnoc(d[1..], x, k);
    }
  }

  /** `all_features` has exactly the features some product has, each with its values
      across the products in product order. */
  lemma {:induction false} AllFeaturesSpec(ps: seq<Product>, f: string)
    ensures f in Keys(AllFeatures(ps)) <==> CountHaving(ps, f) > 0
    ensures f in Keys(AllFeatures(ps)) ==> Get(AllFeatures(ps), f) == ValuesOf(ps, f)
    ensures |ValuesOf(ps, f)| == CountHaving(ps, f)
  {
    if ps != [] {
      var n := |ps| - 1;
      AllFeaturesSpec(ps[..n], f);
      AddSpecsEffect(AllFeatures(ps[..n]), ps[n].specs, f);
    }
  }

  /** A feature is kept exactly when at least 80% of the products have it; its list holds
      its values in product order, so its length lies between 0.8·N and N. The empty
      collection gives the empty index. */
  lemma CommonFeaturesSpec(ps: seq<Product>, f: string)
    ensures ps == [] ==> CommonFeatures(ps) == []
    ensures f in Keys(CommonFeatures(ps)) <==>
              ps != [] && CountHaving(ps, f) as real >= |ps| as real * 0.8
    ensures f in Keys(CommonFeatures(ps)) ==>
              Get(CommonFeatures(ps), f) == ValuesOf(ps, f)
              && |ps| as real * 0.8 <= |Get(CommonFeatures(ps), f)| as real <= |ps| as real
  {
    AllFeaturesSpec(ps, f);
  }

  /** Every list in the index is non-empty, so taking its maximum is defined. */
  lemma CommonFeaturesNonEmpty(ps: seq<Product>)
    ensures forall f :: f in Keys(CommonFeatures(ps)) ==> |Get(CommonFeatures(ps), f)| > 0
  {
    forall f | f in Keys(CommonFeatures(ps)) ensures |Get(CommonFeatures(ps), f)| > 0 {
      CommonFeaturesSpec(ps, f);
    }
  }

  /** The 80% boundary: of five products four must have the feature, of ten eight. */
  lemma CommonFeaturesBoundary(ps: seq<Product>, f: string)
    requires |ps| == 5 || |ps| == 10
    ensures f in Keys(CommonFeatures(ps)) <==> 5 * CountHaving(ps, f) >= 4 * |ps|
  {
    CommonFeaturesSpec(ps, f);
  }

  /** `extract_common_features`: the nested collecting loops, then the 80% filter. */
  method ExtractCommonFeatures(ps: seq<Product>) returns (cf: Dict<string, seq<string>>)
    ensures cf == CommonFeatures(ps)
  {
    if |ps| == 0 {
      return [];
    }
    var all: Dict<string, seq<string>> := [];
    for i := 0 to |ps|
      invariant all == AllFeatures(ps[..i])
    {
      var specs := ps[i].specs;
      ghost var before := AllFeatures(ps[..i]);
      for j := 0 to |specs|
        invariant all == AddSpecs(before, specs[..j])
      {
        var (f, v) := specs[j];
        ghost var expected := AddValue(all, f, v);
        if f !in Keys(all) {
          assert GetOr(all, f, []) + [v] == [v];
          PutTwice(all, f, [], [v]);
          all := Put(all, f, []);
          assert Get(all, f) + [v] == [v];
        }
        all := Put(all, f, Get(all, f) + [v]);
        assert all == expected;
        assert specs[..j + 1][..j] == specs[..j];
      }
      assert specs[..|specs|] == specs;
      assert ps[..i + 1][..i] == ps[..i];
    }
    assert ps[..|ps|] == ps;
    var threshold := |ps| as real * 0.8;
    cf := KeepFrequent(all, threshold);
  }
}
