/** The parser that turns the vision model's free-text answer into a specification
    dictionary (`ImageRecognizer._parse_specs_response`). Each line of the form
    `key: value` contributes one entry once the key has been stripped of list
    numbering and both halves have passed the validity filter; a later line with the
    same key overwrites the earlier one. */
module ImageRecognizer {
  import opened Strings
  import opened Dicts

  /** The characters removed from the front of a key: list numbers and their punctuation. */
  const KeyJunk: set<char> :=
    {'0', '1', '2', '3', '4', '5', '6', '7', '8', '9', '.', '\U{FF09}', ')', '\U{3001}', ' '}

  /** Values that mean "nothing found", compared after lower-casing. */
  const Placeholders: seq<string> :=
    ["", "n/a", "\U{7121}", "\U{672A}\U{627E}\U{5230}", "not found", "\U{66AB}\U{7121}"]

  /** A key/value pair the parser can emit. */
  predicate ValidEntry(key: string, value: string)
  {
    |key| > 1 && |value| > 1 && ':' !in key && key[0] !in KeyJunk
    && Strip(value) == value && Lower(value) !in Placeholders
  }

  /** The key of a line: the text before the first ':', stripped, without leading numbering. */
  function KeyOf(line: string): (k: string)
    ensures ':' !in k && (k == [] || k[0] !in KeyJunk)
  {
    BeforeLacksColon(line);
    StripKeepsOut(Before(line, ":"), ':', KeyJunk);
    LStripChars(Strip(Before(line, ":")), KeyJunk)
  }

  /** The value of a line: the text after the first ':', stripped. */
  function ValueOf(line: string): (v: string)
    ensures Strip(v) == v
  {
    var v := Strip(After(line, ":"));
    StripNoEdge(v);
    v
  }

  /** What one line contributes: `(key, value)`, or nothing. */
  function ParseLine(raw: string): (r: Option<(string, string)>)
    ensures r.Some? ==> ValidEntry(r.value.0, r.value.1)
    ensures ':' !in raw ==> r.None?
  {
    var line := Strip(raw);
    assert ':' !in raw ==> ':' !in line by {
      if ':' !in raw { StripKeepsOut(raw, ':', {}); }
    }
    if line == [] || ':' !in line then None
    else
      var key := KeyOf(line);
      var value := ValueOf(line);
      if |key| > 1 && |value| > 1 && Lower(value) !in Placeholders then Some((key, value))
      else None
  }

  /** The text before the first ':' holds no ':'. */
  lemma BeforeLacksColon(line: string)
    ensures ':' !in Before(line, ":")
  {
    var i := Find(line, ":");
    if i >= 0 {
      if ':' in line[..i] {
        var j :| 0 <= j < i && line[..i][j] == ':';
        assert line[j..j + 1] == ":";
        FindIsFirst(line, ":", j);
      }
    } else {
      ContainsChar(line, ':');
    }
  }

  /** Stripping only removes characters, so it adds no ':'. */
  lemma StripKeepsOut(b: string, c: char, chars: set<char>)
    requires c !in b
    ensures c !in Strip(b) && c !in LStripChars(Strip(b), chars)
  {
    var l := LStrip(b);
    assert c !in l by { assert l == b[|b| - |l|..]; }
    var s := RStrip(l);
    assert c !in s by { assert s == l[..|s|]; }
    var t := LStripChars(s, chars);
    assert t == s[|s| - |t|..];
  }

  /** The dictionary that `d[key] = value`, applied for each parsed line in turn, builds. */
  function Assign<K(==), V>(es: seq<Option<(K, V)>>): Dict<K, V>
  {
    if es == [] then []
    else
      var n := |es| - 1;
      var d := Assign(es[..n]);
      match es[n]
      case None => d
      case Some((k, v)) => Put(d, k, v)
  }

  /** Every entry of the dictionary was assigned by some line. */
  lemma {:induction false} AssignEntries<K, V>(es: seq<Option<(K, V)>>, e: (K, V))
    requires e in Assign(es)
    ensures Some(e) in es
  {
    var n := |es| - 1;
    var d := Assign(es[..n]);
    match es[n]
    case None =>
      AssignEntries(es[..n], e);
      assert Some(e) in es[..n];
    case Some((k, v)) =>
      PutEntries(d, k, v);
      if e != (k, v) {
        AssignEntries(es[..n], e);
        assert Some(e) in es[..n];
      }
  }

  /** Every entry after `d[k] = v` is the new pair or an old entry. */
  lemma {:induction false} PutEntries<K, V>(d: seq<(K, V)>, k: K, v: V)
    ensures forall e :: e in Put(d, k, v) ==> e == (k, v) || e in d
  {
    if d != [] && d[0].0 != k {
      PutEntries(d[1..], k, v);
    }
  }

  /** One more line of the assignment loop. */
  lemma AssignStep<K, V>(es: seq<Option<(K, V)>>, i: nat)
    requires i < |es|
    ensures es[i].None? ==> Assign(es[..i + 1]) == Assign(es[..i])
    ensures es[i].Some? ==> Assign(es[..i + 1]) == Put(Assign(es[..i]), es[i].value.0, es[i].value.1)
    ensures AssignCount(es[..i + 1]) == AssignCount(es[..i]) + if es[i].Some? then 1 else 0
  {
    assert es[..i + 1][..i] == es[..i];
  }

  /** The number of assignments made (the count the parser reports). */
  function AssignCount<T>(es: seq<Option<T>>): (c: nat)
    ensures c <= |es|
  {
    if es == [] then 0
    else
      var n := |es| - 1;
      AssignCount(es[..n]) + if es[n].Some? then 1 else 0
  }

  /** What each line of the answer contributes. */
  function Parsed(lines: seq<string>): seq<Option<(string, string)>>
  {
    MapSeq(lines, ParseLine)
  }

  /** `_parse_specs_response`: the whole answer, split into lines. */
  function ParseSpecsResponseOf(text: string): Dict<string, string>
  {
    Assign(Parsed(SplitOn(text, '\n')))
  }

  /** The loop of the parser: parse each line and assign what it yields. */
  method AssignLines(lines: seq<string>, parse: string -> Option<(string, string)>)
    returns (specs: Dict<string, string>, validCount: nat)
    ensures specs == Assign(MapSeq(lines, parse))
    ensures validCount == AssignCount(MapSeq(lines, parse))
  {
    ghost var es := MapSeq(lines, parse);
    specs := [];
    validCount := 0;
    var i := 0;
    while i < |lines|
      invariant 0 <= i <= |lines|
      invariant specs == Assign(es[..i])
      invariant validCount == AssignCount(es[..i])
    {
      AssignStep(es, i);
      var entry := parse(lines[i]);
      if entry.Some? {
        specs := Put(specs, entry.value.0, entry.value.1);
        validCount := validCount + 1;
      }
      i := i + 1;
    }
    assert es[..|lines|] == es;
  }

  /** `_parse_specs_response`: returns the dictionary. `validCount` is the count of accepted
      lines the function only prints; it is returned here so that its value can be stated. */
  method ParseSpecsResponse(text: string) returns (specs: Dict<string, string>, validCount: nat)
    ensures specs == ParseSpecsResponseOf(text)
    ensures validCount == AssignCount(Parsed(SplitOn(text, '\n')))
  {
    var lines := SplitOn(text, '\n');
    specs, validCount := AssignLines(lines, ParseLine);
  }

  // ------------------------------------------------------------- properties

  /** Every entry of the dictionary passed the filter. */
  lemma SpecsValid(text: string, key: string, value: string)
    requires (key, value) in ParseSpecsResponseOf(text)
    ensures ValidEntry(key, value)
  {
    var es := Parsed(SplitOn(text, '\n'));
    AssignEntries(es, (key, value));
    var i :| 0 <= i < |es| && es[i] == Some((key, value));
  }

  /** A clean key: the filter's conditions, and no white space at either end. */
  predicate CleanKey(key: string)
  {
    |key| > 1 && ':' !in key && key[0] !in KeyJunk && !IsSpace(key[0]) && !IsSpace(key[|key| - 1])
  }

  /** A line `key:value` with a clean key and an acceptable value, possibly preceded by list
      numbering such as `1. `, is read back as that pair. */
  lemma ParseLineRoundTrip(number: string, key: string, value: string)
    requires forall c :: c in number ==> c in KeyJunk
    requires number == [] || !IsSpace(number[0])
    requires CleanKey(key) && ValidEntry(key, value)
    ensures ParseLine(number + key + ":" + value) == Some((key, value))
  {
    var line := number + key + ":" + value;
    assert Strip(line) == line by {
      assert line[0] == (number + key)[0] && line[|line| - 1] == value[|value| - 1];
      StripNoEdge(line);
    }
    assert ':' in line by {
      assert line[|number + key|] == ':';
    }
    LineHalves(number, key, value);
  }

  /** The halves of a numbered `key:value` line. */
  lemma LineHalves(number: string, key: string, value: string)
    requires forall c :: c in number ==> c in KeyJunk
    requires number == [] || !IsSpace(number[0])
    requires CleanKey(key) && ValidEntry(key, value)
    ensures KeyOf(number + key + ":" + value) == key
    ensures ValueOf(number + key + ":" + value) == value
  {
    assert ':' !in number + key;
    ColonAfterKey(number + key, value);
    KeyHalf(number, key, Before(number + key + ":" + value, ":"));
    assert ValueOf(number + key + ":" + value) == Strip(value);
  }

  /** Stripping and removing the numbering from `number + key` leaves the key. */
  lemma KeyHalf(number: string, key: string, before: string)
    requires forall c :: c in number ==> c in KeyJunk
    requires number == [] || !IsSpace(number[0])
    requires CleanKey(key) && before == number + key
    ensures LStripChars(Strip(before), KeyJunk) == key
  {
    assert before[0] == (if number == [] then key[0] else number[0]);
    assert before[|before| - 1] == key[|key| - 1];
    StripNoEdge(before);
    LStripJunk(number, key);
  }

  /** `lstrip` removes a prefix made of stripped characters up to the first one that is kept. */
  lemma {:induction false} LStripJunk(number: string, key: string)
    requires forall c :: c in number ==> c in KeyJunk
    requires key != [] && key[0] !in KeyJunk
    ensures LStripChars(number + key, KeyJunk) == key
  {
    if number != [] {
      assert (number + key)[1..] == number[1..] + key;
      LStripJunk(number[1..], key);
    }
  }

  /** The first ':' of `key + ":" + value` is the one after the key. */
  lemma ColonAfterKey(key: string, value: string)
    requires ':' !in key
    ensures Before(key + ":" + value, ":") == key
    ensures After(key + ":" + value, ":") == value
  {
    var line := key + ":" + value;
    assert line[|key|..|key| + 1] == ":";
    FindIsFirst(line, ":", |key|);
    var i := Find(line, ":");
    assert line[i] == line[i..i + 1][0] == ':';
    assert forall j :: 0 <= j < |key| ==> line[j] == key[j];
    assert i == |key|;
    assert line[..|key|] == key;
    assert line[|key| + 1..] == value;
  }

  /** Blank lines and lines without ':' add nothing and are not counted. */
  lemma NoColonIgnored(lines: seq<string>, extra: string)
    requires ':' !in extra
    ensures Parsed(lines + [extra]) == Parsed(lines) + [None]
  {
  }

  /** An empty answer gives an empty dictionary. */
  lemma EmptyResponse()
    ensures ParseSpecsResponseOf("") == []
  {
    assert SplitOn("", '\n') == [""];
    assert Parsed([""]) == [None];
    assert Parsed([""])[..0] == [];
  }

  /** A key is present with value `v` when the last line bearing that key says `v`. */
  lemma {:induction false} AssignGet<K, V>(es: seq<Option<(K, V)>>, i: nat, k: K, v: V)
    requires i < |es| && es[i] == Some((k, v))
    requires forall j :: i < j < |es| ==> es[j].None? || es[j].value.0 != k
    ensures k in Keys(Assign(es)) && Get(Assign(es), k) == v
  {
    var n := |es| - 1;
    if i < n {
      assert es[..n][i] == es[i];
      forall j | i < j < n ensures es[..n][j].None? || es[..n][j].value.0 != k {
        assert es[..n][j] == es[j];
      }
      AssignGet(es[..n], i, k, v);
    }
  }

  /** A key is present exactly when some line bears it. */
  lemma {:induction false} AssignKeys<K, V>(es: seq<Option<(K, V)>>, k: K)
    ensures k in Keys(Assign(es)) <==> exists i :: 0 <= i < |es| && es[i].Some? && es[i].value.0 == k
  {
    if es != [] {
      var n := |es| - 1;
      AssignKeys(es[..n], k);
      if exists i :: 0 <= i < n && es[..n][i].Some? && es[..n][i].value.0 == k {
        var i :| 0 <= i < n && es[..n][i].Some? && es[..n][i].value.0 == k;
        assert es[i] == es[..n][i];
      }
      if exists i :: 0 <= i < |es| && es[i].Some? && es[i].value.0 == k {
        var i :| 0 <= i < |es| && es[i].Some? && es[i].value.0 == k;
        if i < n {
          assert es[..n][i] == es[i];
        }
      }
    }
  }

  /** The reported count counts lines, so it is never below the number of distinct keys. */
  lemma {:induction false} CountBoundsSpecs<K, V>(es: seq<Option<(K, V)>>)
    ensures |Assign(es)| <= AssignCount(es)
  {
    if es != [] {
      CountBoundsSpecs(es[..|es| - 1]);
    }
  }

  /** The lines of a dictionary written one `key:value` per line. */
  function RenderLines(d: seq<(string, string)>): (r: seq<string>)
    ensures |r| == |d| && forall i :: 0 <= i < |d| ==> r[i] == d[i].0 + ":" + d[i].1
  {
    seq(|d|, i requires 0 <= i < |d| => d[i].0 + ":" + d[i].1)
  }

  /** Assigning the entries of a dictionary in order rebuilds it. */
  lemma {:induction false} AssignEntriesInOrder<K, V>(es: seq<Option<(K, V)>>, d: Dict<K, V>)
    requires |es| == |d| && forall i :: 0 <= i < |d| ==> es[i] == Some(d[i])
    ensures Assign(es) == d
  {
    if d != [] {
      var n := |d| - 1;
      var p: Dict<K, V> := d[..n];
      AssignEntriesInOrder(es[..n], p);
      assert d[n].0 !in Keys(p) by {
        KeysIndex(p, d[n].0);
      }
      assert d == p + [d[n]];
    }
  }

  /** A dictionary of clean entries, written out one `key:value` per line, is parsed back unchanged. */
  lemma SpecsRoundTrip(d: Dict<string, string>)
    requires forall i :: 0 <= i < |d| ==> CleanKey(d[i].0) && ValidEntry(d[i].0, d[i].1)
    ensures Assign(Parsed(RenderLines(d))) == d
  {
    var es := Parsed(RenderLines(d));
    forall i | 0 <= i < |d| ensures es[i] == Some(d[i]) {
      RenderedLine(d[i].0, d[i].1);
    }
    AssignEntriesInOrder(es, d);
  }

  /** A line `key:value` without numbering is read back as that pair. */
  lemma RenderedLine(key: string, value: string)
    requires CleanKey(key) && ValidEntry(key, value)
    ensures ParseLine(key + ":" + value) == Some((key, value))
  {
    ParseLineRoundTrip([], key, value);
    assert [] + key == key;
  }
}
