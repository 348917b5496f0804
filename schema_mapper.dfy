/**
 * The schema mapper: for every decoded document, the (column name,
 * type-mode) lines it writes, one per scalar, one "record-nullable" line
 * before the lines of a non-empty object, and one "*-repeated" line per
 * array element. Column names are the document keys sanitised to
 * [0-9a-z_]; nested keys are joined to their parent's with '_' (objects)
 * or '.' (objects inside arrays).
 */
module SchemaMapper {
  import opened Text
  import opened Json
  import SchemaReducer

  // ---------------------------------------------------------------------------
  // Column names
  // ---------------------------------------------------------------------------

  /** str.lstrip("_") */
  function LStripUnderscore(s: string): (r: string)
    ensures |r| <= |s| && r == s[|s| - |r|..]
    ensures r == [] || r[0] != '_'
    ensures forall i :: 0 <= i < |s| - |r| ==> s[i] == '_'
  {
    if s != [] && s[0] == '_' then LStripUnderscore(s[1..]) else s
  }

  /**
   * The column name for a document key: sanitised and lower-cased, "_f"
   * put before a leading digit (the test is ord 48..59), then leading
   * underscores stripped. None when the key is empty: `k[0]` raises.
   */
  function ColumnName(key: string): Option<string>
  {
    var k := Sanitise(key);
    if k == [] then None
    else
      var k1 := if 48 <= k[0] as int <= 59 then "_f" + k else k;
      Some(if k1[0] == '_' then LStripUnderscore(k1) else k1)
  }

  /** A column name exists for every non-empty key, is made of [0-9a-z_] and never starts with '_'. */
  lemma ColumnNameChars(key: string)
    ensures ColumnName(key).None? <==> key == []
    ensures ColumnName(key).Some? ==>
      var c := ColumnName(key).value;
      (forall i :: 0 <= i < |c| ==> IsLowerWordChar(c[i])) && (c == [] || c[0] != '_')
  {
    if key != [] {
      var k := Sanitise(key);
      if 48 <= k[0] as int <= 59 {
        PrefixedChars(k);
        StripKeepsChars("_f" + k);
      } else if k[0] == '_' {
        StripKeepsChars(k);
      }
    }
  }

  lemma PrefixedChars(k: string)
    requires forall i :: 0 <= i < |k| ==> IsLowerWordChar(k[i])
    ensures forall i :: 0 <= i < |"_f" + k| ==> IsLowerWordChar(("_f" + k)[i])
  {
    forall i | 0 <= i < |"_f" + k|
      ensures IsLowerWordChar(("_f" + k)[i])
    {
      if i >= 2 {
        assert ("_f" + k)[i] == k[i - 2];
      }
    }
  }

  lemma StripKeepsChars(s: string)
    requires forall i :: 0 <= i < |s| ==> IsLowerWordChar(s[i])
    ensures var r := LStripUnderscore(s); forall i :: 0 <= i < |r| ==> IsLowerWordChar(r[i])
  {
    var r := LStripUnderscore(s);
    forall i | 0 <= i < |r|
      ensures IsLowerWordChar(r[i])
    {
      assert r[i] == s[|s| - |r| + i];
    }
  }

  /** A key that starts with a digit gets an 'f' before its sanitised text. */
  lemma ColumnNameOfDigit(key: string)
    requires key != [] && IsDigit(key[0])
    ensures ColumnName(key) == Some("f" + Sanitise(key))
  {
    var k := Sanitise(key);
    assert k[0] == key[0];
    assert 48 <= k[0] as int <= 59;
    var k1 := "_f" + k;
    assert k1[0] == '_';
    assert k1[1..] == "f" + k;
    var r := LStripUnderscore(k1);
    assert r == LStripUnderscore("f" + k);
    assert ("f" + k)[0] == 'f';
    assert r == "f" + k;
  }

  /** Any other key only loses its leading underscores. */
  lemma ColumnNameOfOther(key: string)
    requires key != [] && !IsDigit(key[0])
    ensures var c := ColumnName(key).value;
      var k := Sanitise(key);
      |c| <= |k| && k == k[..|k| - |c|] + c && forall i :: 0 <= i < |k| - |c| ==> k[i] == '_'
  {
    var k := Sanitise(key);
    assert !(48 <= k[0] as int <= 59) by {
      if IsWordChar(key[0]) { assert k[0] == LowerChar(key[0]); }
    }
    var c := ColumnName(key).value;
    assert k == k[..|k| - |c|] + k[|k| - |c|..];
  }

  /** The strip comes after the digit test: "_1a" names the column "1a", which starts with a digit. */
  lemma UnderscoreHidesDigit()
    ensures ColumnName("_1a") == Some("1a")
  {
    SanitiseFixesCleanNames("_1a");
    assert "_1a"[1..] == "1a";
    assert LStripUnderscore("1a") == "1a";
  }

  /** `parent + seperator + k`, or just k at the top of a document. */
  function FullKey(parent: Option<string>, sep: char, k: string): string
  {
    if parent.None? then k else parent.value + [sep] + k
  }

  // ---------------------------------------------------------------------------
  // Type-modes
  // ---------------------------------------------------------------------------

  /** The type-mode of a scalar: bool is tested before int, and a long is not an int. */
  function ScalarType(v: Json): string
  {
    match v
    case JBool(_) => "boolean-nullable"
    case JInt(i) => if IsPyInt(i) then "integer-nullable" else "string-nullable"
    case JFloat(_) => "float-nullable"
    case _ => "string-nullable"
  }

  /** The type-mode of one array element: dict, bool, int, float, anything else. */
  function RepeatedType(v: Json): string
  {
    match v
    case JObject(_) => "record-repeated"
    case JBool(_) => "boolean-repeated"
    case JInt(i) => if IsPyInt(i) then "integer-repeated" else "string-repeated"
    case JFloat(_) => "float-repeated"
    case _ => "string-repeated"
  }

  /** Every type-mode the mapper writes. */
  const EmittedTypes: set<string> := {
    "record-nullable", "boolean-nullable", "integer-nullable", "float-nullable", "string-nullable",
    "record-repeated", "boolean-repeated", "integer-repeated", "float-repeated", "string-repeated"
  }

  // ---------------------------------------------------------------------------
  // process_line
  // ---------------------------------------------------------------------------

  /** What process_line wrote to the output stream, and whether it raised part-way through. */
  datatype Emission = Emission(lines: seq<(string, string)>, crashed: bool)

  const Nothing := Emission([], false)

  /** One step after another: once a step has raised, nothing more is written. */
  function Then(a: Emission, b: Emission): Emission
  {
    if a.crashed then a else Emission(a.lines + b.lines, b.crashed)
  }

  /**
   * process_line on a decoded document, under `parent` (None at the top)
   * with the separator for its keys: nothing for a falsy document; a
   * truthy one that is not a dict raises at `iteritems`.
   */
  function ProcessDocument(data: Json, parent: Option<string>, sep: char): Emission
    decreases data, 2
  {
    if !Truthy(data) then Nothing
    else if !data.JObject? then Emission([], true)
    else EmitFields(data, 0, parent, sep)
  }

  /** The document's fields from index i on, in iteration order; an empty key raises. */
  function EmitFields(data: Json, i: nat, parent: Option<string>, sep: char): Emission
    requires data.JObject?
    decreases data, 1, |data.fields| - i
  {
    if i >= |data.fields| then Nothing
    else
      match ColumnName(data.fields[i].0)
      case None => Emission([], true)
      case Some(k) =>
        Then(EmitValue(FullKey(parent, sep, k), data.fields[i].1), EmitFields(data, i + 1, parent, sep))
  }

  /** The lines for one value under its full key. */
  function EmitValue(fullKey: string, value: Json): Emission
    decreases value, 3
  {
    match value
    case JNull => Nothing
    case JObject(fields) =>
      if |fields| > 0 then Then(Emission([(fullKey, "record-nullable")], false), ProcessDocument(value, Some(fullKey), '_'))
      else Nothing
    case JArray(_) => EmitItems(value, 0, fullKey)
    case _ => Emission([(fullKey, ScalarType(value))], false)
  }

  /** The elements of a list from index j on: one typed line each, and a dict element's own lines after it. */
  function EmitItems(list: Json, j: nat, fullKey: string): Emission
    requires list.JArray?
    decreases list, 1, |list.items| - j
  {
    if j >= |list.items| then Nothing
    else
      var item := list.items[j];
      var line := Emission([(fullKey, RepeatedType(item))], false);
      var first := if item.JObject? then Then(line, ProcessDocument(item, Some(fullKey), '.')) else line;
      Then(first, EmitItems(list, j + 1, fullKey))
  }

  /** None, an empty dict and an empty list write nothing; a scalar writes its one typed line. */
  lemma EmptyAndScalarValues(fullKey: string, v: Json)
    ensures EmitValue(fullKey, JNull) == Nothing
    ensures EmitValue(fullKey, JObject([])) == Nothing
    ensures EmitValue(fullKey, JArray([])) == Nothing
    ensures !v.JNull? && !v.JObject? && !v.JArray? ==> EmitValue(fullKey, v) == Emission([(fullKey, ScalarType(v))], false)
    ensures ScalarType(JBool(true)) == ScalarType(JBool(false)) == "boolean-nullable"
  {
  }

  /** A non-empty dict writes its "record-nullable" line first, then its fields under it with '_'. */
  lemma ObjectValue(fullKey: string, fields: seq<(string, Json)>)
    requires fields != []
    ensures var e := EmitValue(fullKey, JObject(fields));
      e.lines != [] && e.lines[0] == (fullKey, "record-nullable")
      && e.lines[1..] == EmitFields(JObject(fields), 0, Some(fullKey), '_').lines
  {
    var v := JObject(fields);
    var rest := EmitFields(v, 0, Some(fullKey), '_');
    assert ProcessDocument(v, Some(fullKey), '_') == rest;
    assert EmitValue(fullKey, v) == Emission([(fullKey, "record-nullable")] + rest.lines, rest.crashed);
  }

  // ---------------------------------------------------------------------------
  // The shape of the written keys
  // ---------------------------------------------------------------------------

  /** A written key is made of [0-9a-z_] and the separators. */
  predicate KeyChars(s: string)
  {
    forall i :: 0 <= i < |s| ==> IsLowerWordChar(s[i]) || s[i] == '.'
  }

  /** Every line is well formed, and its key lies under `parent` + sep. */
  predicate Below(lines: seq<(string, string)>, prefix: string)
  {
    forall l :: l in lines ==> StartsWith(l.0, prefix) && KeyChars(l.0) && l.1 in EmittedTypes
  }

  /** A value's lines carry its own key, or a key under it. */
  predicate AtOrBelow(lines: seq<(string, string)>, fullKey: string)
  {
    forall l :: l in lines ==>
      (l.0 == fullKey || StartsWith(l.0, fullKey + "_") || StartsWith(l.0, fullKey + "."))
      && KeyChars(l.0) && l.1 in EmittedTypes
  }

  lemma StartsWithLonger(s: string, a: string, b: string)
    requires StartsWith(s, a + b)
    ensures StartsWith(s, a)
  {
    assert s[..|a|] == (a + b)[..|a|];
  }

  lemma FullKeyChars(parent: string, sep: char, k: string)
    requires KeyChars(parent) && (sep == '_' || sep == '.')
    requires forall i :: 0 <= i < |k| ==> IsLowerWordChar(k[i])
    ensures KeyChars(FullKey(Some(parent), sep, k)) && StartsWith(FullKey(Some(parent), sep, k), parent + [sep])
  {
    var f := FullKey(Some(parent), sep, k);
    assert f[..|parent| + 1] == parent + [sep];
    forall i | 0 <= i < |f| ensures IsLowerWordChar(f[i]) || f[i] == '.' {
      if i < |parent| { assert f[i] == parent[i]; }
      else if i > |parent| { assert f[i] == k[i - |parent| - 1]; }
    }
  }

  /** A value's lines sit under a key that is itself under the prefix. */
  lemma AtOrBelowIsBelow(lines: seq<(string, string)>, fullKey: string, prefix: string)
    requires AtOrBelow(lines, fullKey) && StartsWith(fullKey, prefix)
    ensures Below(lines, prefix)
  {
    forall l | l in lines ensures StartsWith(l.0, prefix) {
      if l.0 != fullKey {
        if StartsWith(l.0, fullKey + "_") { StartsWithLonger(l.0, fullKey, "_"); }
        else { StartsWithLonger(l.0, fullKey, "."); }
        assert l.0[..|prefix|] == l.0[..|fullKey|][..|prefix|];
      }
    }
  }

  lemma {:induction false} DocumentKeys(data: Json, parent: string, sep: char)
    requires KeyChars(parent) && (sep == '_' || sep == '.')
    ensures Below(ProcessDocument(data, Some(parent), sep).lines, parent + [sep])
    decreases data, 2
  {
    if Truthy(data) && data.JObject? {
      FieldsKeys(data, 0, parent, sep);
    }
  }

  lemma {:induction false} FieldsKeys(data: Json, i: nat, parent: string, sep: char)
    requires data.JObject? && KeyChars(parent) && (sep == '_' || sep == '.')
    ensures Below(EmitFields(data, i, Some(parent), sep).lines, parent + [sep])
    decreases data, 1, |data.fields| - i
  {
    if i < |data.fields| {
      var key := data.fields[i].0;
      ColumnNameChars(key);
      if ColumnName(key).Some? {
        var k := ColumnName(key).value;
        var f := FullKey(Some(parent), sep, k);
        FullKeyChars(parent, sep, k);
        ValueKeys(f, data.fields[i].1);
        AtOrBelowIsBelow(EmitValue(f, data.fields[i].1).lines, f, parent + [sep]);
        FieldsKeys(data, i + 1, parent, sep);
      }
    }
  }

  lemma {:induction false} ValueKeys(fullKey: string, value: Json)
    requires KeyChars(fullKey)
    ensures AtOrBelow(EmitValue(fullKey, value).lines, fullKey)
    decreases value, 3
  {
    match value
    case JObject(fields) =>
      if |fields| > 0 {
        DocumentKeys(value, fullKey, '_');
      }
    case JArray(_) => ItemsKeys(value, 0, fullKey);
    case _ =>
  }

  lemma {:induction false} ItemsKeys(list: Json, j: nat, fullKey: string)
    requires list.JArray? && KeyChars(fullKey)
    ensures AtOrBelow(EmitItems(list, j, fullKey).lines, fullKey)
    decreases list, 1, |list.items| - j
  {
    if j < |list.items| {
      var item := list.items[j];
      if item.JObject? {
        DocumentKeys(item, fullKey, '.');
      }
      ItemsKeys(list, j + 1, fullKey);
    }
  }

  /** At the top of a document every line's key is made of [0-9a-z_.] and its type-mode is one of the ten. */
  lemma {:induction false} TopKeys(data: Json)
    ensures forall l :: l in ProcessDocument(data, None, '_').lines ==> KeyChars(l.0) && l.1 in EmittedTypes
  {
    if Truthy(data) && data.JObject? {
      TopFieldsKeys(data, 0);
    }
  }

  lemma {:induction false} TopFieldsKeys(data: Json, i: nat)
    requires data.JObject?
    ensures forall l :: l in EmitFields(data, i, None, '_').lines ==> KeyChars(l.0) && l.1 in EmittedTypes
    decreases |data.fields| - i
  {
    if i < |data.fields| {
      var key := data.fields[i].0;
      ColumnNameChars(key);
      if ColumnName(key).Some? {
        var k := ColumnName(key).value;
        ValueKeys(k, data.fields[i].1);
        TopFieldsKeys(data, i + 1);
      }
    }
  }

  // ---------------------------------------------------------------------------
  // One line per array element
  // ---------------------------------------------------------------------------

  /** The type-modes written for exactly `key`, in order. */
  function TypesOf(lines: seq<(string, string)>, key: string): (ts: seq<string>)
    ensures |ts| <= |lines|
  {
    if lines == [] then []
    else (if lines[0].0 == key then [lines[0].1] else []) + TypesOf(lines[1..], key)
  }

  lemma {:induction false} TypesOfAppend(a: seq<(string, string)>, b: seq<(string, string)>, key: string)
    ensures TypesOf(a + b, key) == TypesOf(a, key) + TypesOf(b, key)
  {
    if a != [] {
      assert (a + b)[1..] == a[1..] + b;
      TypesOfAppend(a[1..], b, key);
    } else {
      assert a + b == b;
    }
  }

  lemma {:induction false} TypesOfBelow(lines: seq<(string, string)>, key: string)
    requires Below(lines, key + ".")
    ensures TypesOf(lines, key) == []
  {
    if lines != [] {
      assert lines[0] in lines;
      assert |lines[0].0| > |key|;
      assert forall l :: l in lines[1..] ==> l in lines;
      TypesOfBelow(lines[1..], key);
    }
  }

  /** The repeated type-modes of the elements from index j on. */
  function RepeatedTypes(list: Json, j: nat): (ts: seq<string>)
    requires list.JArray?
    decreases |list.items| - j
  {
    if j >= |list.items| then [] else [RepeatedType(list.items[j])] + RepeatedTypes(list, j + 1)
  }

  /**
   * Unless it raised part-way, a list writes exactly one line under its own
   * key per element, typed by that element, in order; the lines of dict
   * elements all lie under key + ".".
   */
  lemma {:induction false} OneLinePerElement(list: Json, j: nat, fullKey: string)
    requires list.JArray? && KeyChars(fullKey)
    requires !EmitItems(list, j, fullKey).crashed
    ensures TypesOf(EmitItems(list, j, fullKey).lines, fullKey) == RepeatedTypes(list, j)
    decreases |list.items| - j
  {
    if j < |list.items| {
      var item := list.items[j];
      var line := Emission([(fullKey, RepeatedType(item))], false);
      var rest := EmitItems(list, j + 1, fullKey);
      OneLinePerElement(list, j + 1, fullKey);
      if item.JObject? {
        var sub := ProcessDocument(item, Some(fullKey), '.');
        DocumentKeys(item, fullKey, '.');
        TypesOfBelow(sub.lines, fullKey);
        TypesOfAppend(line.lines, sub.lines, fullKey);
        TypesOfAppend(line.lines + sub.lines, rest.lines, fullKey);
      } else {
        TypesOfAppend(line.lines, rest.lines, fullKey);
      }
    }
  }

  // ---------------------------------------------------------------------------
  // is_integer
  // ---------------------------------------------------------------------------

  /** is_integer: int(str(value)) succeeds and lies within [-maxint-1, maxint]. */
  function IsInteger(v: Json): bool
  {
    match ParseInt(Str(v))
    case Some(a) => IsPyInt(a)
    case None => false
  }

  /** For a decoded integer, is_integer is exactly the machine-int range test. */
  lemma IsIntegerOfInt(i: int)
    ensures IsInteger(JInt(i)) <==> IsPyInt(i)
  {
    IntRoundTrip(i);
  }

  /** str(True) and str(False) are not integers. */
  lemma IsIntegerOfBool(b: bool)
    ensures !IsInteger(JBool(b))
  {
    var s := Str(JBool(b));
    assert s[0] == 'T' || s[0] == 'F';
    assert forall k :: 0 <= k < |s| ==> !IsSpace(s[k]);
    StripNoSpace(s);
    assert !IsDigit(s[0]);
  }

  // ---------------------------------------------------------------------------
  // main
  // ---------------------------------------------------------------------------

  /** process_line on one input line; None is a line that is not JSON, which is reported and writes nothing. */
  function MapLine(line: Option<Json>): Emission
  {
    match line
    case None => Nothing
    case Some(data) => ProcessDocument(data, None, '_')
  }

  /** Everything written for the input lines, including the lines a raising document wrote before it raised. */
  function MappedOutput(docs: seq<Option<Json>>): seq<(string, string)>
  {
    if docs == [] then [] else MappedOutput(docs[..|docs| - 1]) + MapLine(docs[|docs| - 1]).lines
  }

  /** The input lines process_line finished without raising. */
  function Completed(docs: seq<Option<Json>>): nat
  {
    if docs == [] then 0 else Completed(docs[..|docs| - 1]) + (if MapLine(docs[|docs| - 1]).crashed then 0 else 1)
  }

  /** main: map every line; line_num counts the lines that did not raise. */
  method MapAll(docs: seq<Option<Json>>) returns (out: seq<(string, string)>, lineNum: nat)
    ensures out == MappedOutput(docs)
    ensures lineNum == 1 + Completed(docs)
  {
    out := [];
    lineNum := 1;
    var i := 0;
    while i < |docs|
      invariant 0 <= i <= |docs|
      invariant out == MappedOutput(docs[..i])
      invariant lineNum == 1 + Completed(docs[..i])
    {
      assert docs[..i + 1][..i] == docs[..i];
      var e := MapLine(docs[i]);
      out := out + e.lines;
      if !e.crashed {
        lineNum := lineNum + 1;
      }
      i := i + 1;
    }
    assert docs[..i] == docs;
  }

  /** Every written line is well formed: its key is made of [0-9a-z_.] and its type-mode is one of the ten. */
  lemma {:induction false} MappedOutputShape(docs: seq<Option<Json>>)
    ensures forall l :: l in MappedOutput(docs) ==> KeyChars(l.0) && l.1 in EmittedTypes
  {
    if docs != [] {
      MappedOutputShape(docs[..|docs| - 1]);
      if docs[|docs| - 1].Some? {
        TopKeys(docs[|docs| - 1].value);
      }
    }
  }

  // ---------------------------------------------------------------------------
  // The mapper's lines as the reducer reads them
  // ---------------------------------------------------------------------------

  /** The text line "%s\t%s" % (full_key, type_mode). */
  function OutputLine(l: (string, string)): string
  {
    l.0 + "\t" + l.1
  }

  lemma EmittedTypeShape(t: string)
    requires t in EmittedTypes
    ensures t != [] && !IsSpace(t[0]) && !IsSpace(t[|t| - 1]) && '\t' !in t
  {
  }

  lemma StripKeepsEdges(s: string)
    requires s != [] && !IsSpace(s[0]) && !IsSpace(s[|s| - 1])
    ensures Strip(s) == s
  {
  }

  lemma TabAfter(a: string, b: string, s: string)
    requires s == a + "\t" + b && '\t' !in a
    ensures s[|a|] == '\t' && forall i :: 0 <= i < |a| ==> s[i] != '\t'
  {
    forall i | 0 <= i < |a| ensures s[i] != '\t' {
      assert s[i] == a[i];
    }
  }

  /** A tab-free prefix before a tab is fixed by the string. */
  lemma SplitAtTab(a: string, b: string, a': string, b': string)
    requires '\t' !in a && '\t' !in a' && a + "\t" + b == a' + "\t" + b'
    ensures a == a' && b == b'
  {
    var s := a + "\t" + b;
    TabAfter(a, b, s);
    TabAfter(a', b', s);
    assert |a| == |a'|;
    assert a == s[..|a|] == a';
    assert b == s[|a| + 1..] == b';
  }

  /** A written line with a non-empty key unpacks, in the reducer, into that key and type-mode. */
  lemma WrittenLineUnpacks(l: (string, string))
    requires l.0 != [] && KeyChars(l.0) && l.1 in EmittedTypes
    ensures SchemaReducer.ParseLine(OutputLine(l)) == Some(l)
  {
    var s := OutputLine(l);
    EmittedTypeShape(l.1);
    assert !IsSpace(l.0[0]) by { assert IsLowerWordChar(l.0[0]) || l.0[0] == '.'; }
    assert s[0] == l.0[0] && s[|s| - 1] == l.1[|l.1| - 1];
    StripKeepsEdges(s);
    assert '\t' !in l.0 by {
      forall i | 0 <= i < |l.0| ensures l.0[i] != '\t' {
        assert IsLowerWordChar(l.0[i]) || l.0[i] == '.';
      }
    }
    assert s[|l.0|] == '\t';
    var parts := SplitOnce(s, '\t');
    SplitAtTab(parts[0], parts[1], l.0, l.1);
  }

  /**
   * A line with an empty key (a top-level key of only non-word characters,
   * such as "$") loses its tab to strip() and aborts the reducer.
   */
  lemma EmptyKeyAbortsReducer(schema: SchemaReducer.Schema, lines: seq<string>, i: nat, t: string)
    requires i < |lines| && t in EmittedTypes && lines[i] == OutputLine(("", t))
    ensures SchemaReducer.Reduce(schema, lines).failure.Some?
  {
    EmittedTypeShape(t);
    var s := lines[i];
    assert s == "\t" + t;
    assert TrimLeft(s) == TrimLeft(t) by { assert s[1..] == t; }
    StripKeepsEdges(t);
    SchemaReducer.LineWithoutTabAborts(schema, lines, i);
  }

  /** The key "$" at the top of a document is written with an empty column name. */
  lemma DollarKeyIsEmpty()
    ensures ProcessDocument(JObject([("$", JInt(1))]), None, '_').lines == [("", "integer-nullable")]
  {
    DollarColumn();
    OneField("$", JInt(1), '_');
    var e := EmitValue("", JInt(1));
    assert e == Emission([("", "integer-nullable")], false);
    assert Then(e, Nothing).lines == [("", "integer-nullable")] + [];
  }

  /** A top-level document with a single key writes what its one value writes. */
  lemma OneField(key: string, v: Json, sep: char)
    requires ColumnName(key).Some?
    ensures ProcessDocument(JObject([(key, v)]), None, sep) == Then(EmitValue(ColumnName(key).value, v), Nothing)
  {
    var data := JObject([(key, v)]);
    assert EmitFields(data, 1, None, sep) == Nothing;
  }

  lemma DollarColumn()
    ensures ColumnName("$") == Some("")
  {
    var k := Sanitise("$");
    assert k == "_" by { assert k[0] == SanitiseChar('$'); }
    assert "_"[1..] == "";
  }
}
