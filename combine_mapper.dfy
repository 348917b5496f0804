/**
 * The data-transform mapper (json/combine-data-mapper.py): clean_data splits
 * one document into a root row and child-table fragments, driven by a schema
 * map of "type-mode[-forced]" strings; get_shard_value derives the shard
 * value; process_line and create_file_descriptor write each fragment to a
 * local file opened on first use.
 *
 * SHA-1 and float() are parameters (Config.hash, Config.isFloatText); JSON
 * text is not modelled, so a line that does not parse is a None input.
 */
module CombineMapper {
  import opened Text
  import opened Json
  import SchemaMapper
  import SchemaReducer

  // ---------------------------------------------------------------------------
  // Rows and fragments
  // ---------------------------------------------------------------------------

  /** A value clean_data stores in a row: what json.dumps later writes. */
  datatype Cell =
    | CNull              // None
    | CText(s: string)   // unicode(v), and the hash codes
    | CBool(b: bool)     // str(v).lower() == 'true'
    | CInt(i: int)       // int(v) of a bool, an int or a numeric string
    | CTrunc(floatText: string) // int(v) of a float (its truncation; floats are not modelled)
    | CFloat(source: Json) // float(v) (floats are not modelled, only where the value came from)
    | CJson(array: Json)  // json.dumps(v) of a whole array when arrays are not split off

  type Row = map<string, Cell>

  const HashKey := "hash_code"
  const ParentKey := "parent_hash_code"

  /**
   * A value of new_data_fragments: either new_data itself (the dict is
   * shared, so every later write to new_data shows through), or a list of rows.
   */
  datatype Frag = Own | Rows(rows: seq<Row>)

  /** new_data_fragments, in insertion order. */
  type Frags = seq<(string, Frag)>

  /** new_data and new_data_fragments while clean_data runs. */
  datatype State = State(row: Row, frags: Frags)

  /**
   * Where clean_data stands: still going, returned None (the line is
   * dropped), or raised (nothing catches it, so the mapper process dies).
   */
  datatype Outcome = Going(st: State) | Rejected | Crashed

  /** The script's globals and the two computations not modelled here. */
  datatype Config = Config(
    childTable: bool,             // process_array == "child_table"
    shardKey: Option<string>,     // shard_key
    schema: map<string, string>,  // full key -> "type-mode[-forced]"
    hash: Json -> string,         // sha1(json.dumps(data, sort_keys=True)).hexdigest()
    isFloatText: string -> bool)  // whether float(s) accepts the string s

  /** Where in the document a call of clean_data works. */
  datatype Ctx = Ctx(parent: Option<string>, isArray: bool, hash: string)

  // ---------------------------------------------------------------------------
  // new_data_fragments as a Python dict
  // ---------------------------------------------------------------------------

  /** new_data_fragments.get(name) */
  function Find(frags: Frags, name: string): Option<Frag>
  {
    if frags == [] then None
    else if frags[0].0 == name then Some(frags[0].1)
    else Find(frags[1..], name)
  }

  /** new_data_fragments[name] = f: replaced in place when present, added at the end otherwise. */
  function Put(frags: Frags, name: string, f: Frag): Frags
  {
    if frags == [] then [(name, f)]
    else if frags[0].0 == name then [(name, f)] + frags[1..]
    else [frags[0]] + Put(frags[1..], name, f)
  }

  /** get finds what is stored under the name, and only names that are stored. */
  lemma {:induction false} FindIn(frags: Frags, name: string)
    ensures Find(frags, name).Some? ==> (name, Find(frags, name).value) in frags
    ensures Find(frags, name).None? ==> forall e :: e in frags ==> e.0 != name
  {
    if frags != [] && frags[0].0 != name {
      FindIn(frags[1..], name);
    }
  }

  /** After new_data_fragments[name] = f, get(name) is f and every other name reads as before. */
  lemma {:induction false} FindPut(frags: Frags, name: string, f: Frag, n: string)
    ensures Find(Put(frags, name, f), n) == if n == name then Some(f) else Find(frags, n)
  {
    if frags != [] && frags[0].0 != name {
      FindPut(frags[1..], name, f, n);
    }
  }

  /** Storing adds the new entry, keeps the first entry of another name in front, and brings in nothing else. */
  lemma {:induction false} PutEntries(frags: Frags, name: string, f: Frag)
    ensures var r := Put(frags, name, f);
      (name, f) in r
      && (forall e :: e in r ==> e in frags || e == (name, f))
      && (frags != [] && frags[0].0 != name ==> r[0] == frags[0])
  {
    if frags != [] && frags[0].0 != name {
      PutEntries(frags[1..], name, f);
      var r := Put(frags, name, f);
      forall e | e in r
        ensures e in frags || e == (name, f)
      {
        if e != frags[0] {
          assert e in Put(frags[1..], name, f);
        }
      }
    }
  }

  /** if name not in new_data_fragments: new_data_fragments[name] = [] */
  function EnsureList(frags: Frags, name: string): Frags
  {
    if Find(frags, name).None? then Put(frags, name, Rows([])) else frags
  }

  /** new_data_fragments[name].append(row): a KeyError or AttributeError unless a list is stored there. */
  function AppendRow(frags: Frags, name: string, row: Row): Option<Frags>
  {
    match Find(frags, name)
    case Some(Rows(rs)) => Some(Put(frags, name, Rows(rs + [row])))
    case _ => None
  }

  /** Names are distinct, as a dict's keys are. */
  predicate DistinctNames(frags: Frags)
  {
    forall i, j :: 0 <= i < j < |frags| ==> frags[i].0 != frags[j].0
  }

  lemma {:induction false} PutDistinct(frags: Frags, name: string, f: Frag)
    requires DistinctNames(frags)
    ensures DistinctNames(Put(frags, name, f))
  {
    if frags != [] && frags[0].0 != name {
      PutDistinct(frags[1..], name, f);
      PutEntries(frags[1..], name, f);
      var r := Put(frags, name, f);
      forall j | 0 < j < |r|
        ensures r[0].0 != r[j].0
      {
        assert r[j] in Put(frags[1..], name, f);
        if r[j] != (name, f) {
          assert r[j] in frags[1..];
        }
      }
    }
  }

  // ---------------------------------------------------------------------------
  // Keys
  // ---------------------------------------------------------------------------

  /**
   * The column key for a document key: sanitised, with "_f" before a leading
   * digit (ord 48..59). Unlike the schema mapper, leading underscores stay.
   * None stands for the IndexError of k[0] on an empty key.
   */
  function CellKey(key: string): Option<string>
  {
    var k := Sanitise(key);
    if k == [] then None
    else if 48 <= k[0] as int <= 59 then Some("_f" + k)
    else Some(k)
  }

  lemma CellKeyShape(key: string)
    ensures CellKey(key).None? <==> key == []
    ensures CellKey(key).Some? ==> KeyChars(CellKey(key).value)
    ensures key != [] && IsDigit(key[0]) ==> CellKey(key) == Some("_f" + Sanitise(key))
    ensures key != [] && !IsDigit(key[0]) ==> CellKey(key) == Some(Sanitise(key))
  {
    if key != [] {
      var k := Sanitise(key);
      assert k[0] == SanitiseChar(key[0]);
      if !IsDigit(key[0]) {
        assert !(48 <= k[0] as int <= 59);
      }
    }
  }

  predicate KeyChars(s: string)
  {
    forall i :: 0 <= i < |s| ==> IsLowerWordChar(s[i])
  }

  /**
   * "_id": the schema mapper registers it as "id", the data mapper looks it
   * up as "_id", so the value is skipped as a key with no type.
   */
  lemma UnderscoreKeyMismatch()
    ensures SchemaMapper.ColumnName("_id") == Some("id")
    ensures CellKey("_id") == Some("_id")
  {
    SanitiseFixesCleanNames("_id");
    assert "_id"[1..] == "id";
    assert SchemaMapper.LStripUnderscore("id") == "id";
  }

  /** (full_key, dict_key): the schema key and the key the value is stored under. */
  function FieldKeys(ctx: Ctx, key: string, k: string): (string, string)
  {
    if ctx.parent.None? then (k, k)
    else if ctx.isArray then (ctx.parent.value + "." + k, key)
    else (ctx.parent.value + "_" + k, ctx.parent.value + "_" + k)
  }

  // ---------------------------------------------------------------------------
  // get_shard_value
  // ---------------------------------------------------------------------------

  /**
   * The walk `if part in tmp: tmp = tmp[part] else: return None`. `in`
   * works on dicts, lists and strings and raises TypeError on anything else;
   * indexing a list or a string with a string raises TypeError.
   */
  function Walk(tmp: Json, parts: seq<string>): Result<Option<Json>>
    decreases |parts|
  {
    if parts == [] then Ok(Some(tmp))
    else match tmp
      case JObject(fs) =>
        if HasKey(fs, parts[0]) then Walk(Get(fs, parts[0]).value, parts[1..]) else Ok(None)
      case JArray(items) => if JString(parts[0]) in items then Err("TypeError") else Ok(None)
      case JString(s) => if Contains(s, parts[0]) then Err("TypeError") else Ok(None)
      case _ => Err("TypeError")
  }

  /** get_shard_value(data, shard_key) */
  function ShardValue(data: Json, shardKey: string): (r: Result<Option<string>>)
    ensures r.Ok? && r.value.Some? ==> 1 <= |r.value.value| <= 32 && KeyChars(r.value.value)
    ensures (exists fs :: Walk(data, Split(shardKey, '.')) == Ok(Some(JObject(fs)))) ==> r == Ok(None)
  {
    match Walk(data, Split(shardKey, '.'))
    case Err(e) => Err(e)
    case Ok(None) => Ok(None)
    case Ok(Some(v)) =>
      if v.JObject? then Ok(None)
      else if StrRaises(v) then Err("UnicodeEncodeError")
      else
        var s := Str(v);
        if |s| > 32 || |s| <= 0 then Ok(None) else Ok(Some(Sanitise(s)))
  }

  /** str() of a shard value past ASCII raises UnicodeEncodeError, which get_shard_value does not catch. */
  lemma ShardOfNonAsciiRaises(key: string, s: string)
    requires '.' !in key
    requires exists k :: 0 <= k < |s| && s[k] >= 128 as char
    ensures ShardValue(JObject([(key, JString(s))]), key) == Err("UnicodeEncodeError")
  {
    var fs := [(key, JString(s))];
    assert Split(key, '.') == [key];
    assert HasKey(fs, key) by { assert fs[0].0 == key; }
    assert Walk(JObject(fs), [key]) == Walk(JString(s), []);
  }

  /** Walking a path whose first n parts lead through dicts to a dict without the next part gives None. */
  lemma {:induction false} MissingSegment(data: Json, parts: seq<string>, n: nat)
    requires n < |parts|
    requires Walk(data, parts[..n]) == Ok(Some(JObject(Fs(data, parts, n))))
    requires !HasKey(Fs(data, parts, n), parts[n])
    ensures Walk(data, parts) == Ok(None)
    decreases n
  {
    if n > 0 {
      var fs := data.fields;
      assert parts[..n][0] == parts[0] && parts[..n][1..] == parts[1..][..n - 1];
      MissingSegment(Get(fs, parts[0]).value, parts[1..], n - 1);
    }
  }

  /** The fields of the dict the first n parts lead to (empty when they do not lead to one). */
  function Fs(data: Json, parts: seq<string>, n: nat): seq<(string, Json)>
    requires n <= |parts|
  {
    match Walk(data, parts[..n])
    case Ok(Some(JObject(fs))) => fs
    case _ => []
  }

  /** A missing segment of the shard key gives no shard value. */
  lemma ShardOfMissingSegment(data: Json, shardKey: string, n: nat)
    requires n < |Split(shardKey, '.')|
    requires Walk(data, Split(shardKey, '.')[..n]) == Ok(Some(JObject(Fs(data, Split(shardKey, '.'), n))))
    requires !HasKey(Fs(data, Split(shardKey, '.'), n), Split(shardKey, '.')[n])
    ensures ShardValue(data, shardKey) == Ok(None)
  {
    MissingSegment(data, Split(shardKey, '.'), n);
  }

  /** A short clean string under a one-part key is the shard value unchanged. */
  lemma ShardOfCleanValue(key: string, s: string)
    requires '.' !in key
    requires 1 <= |s| <= 32 && KeyChars(s)
    ensures ShardValue(JObject([(key, JString(s))]), key) == Ok(Some(s))
  {
    var fs := [(key, JString(s))];
    assert Split(key, '.') == [key];
    assert HasKey(fs, key) by { assert fs[0].0 == key; }
    assert Walk(JObject(fs), [key]) == Walk(JString(s), []);
    SanitiseFixesCleanNames(s);
  }

  // ---------------------------------------------------------------------------
  // Conversions
  // ---------------------------------------------------------------------------

  /**
   * A conversion either gives a cell or raises ValueError (caught),
   * TypeError or UnicodeEncodeError (neither caught).
   */
  datatype Conv = Value(c: Cell) | ValueError | TypeError | EncodeError

  /** float(v) */
  function ToFloat(cfg: Config, v: Json): Conv
  {
    match v
    case JBool(_) => Value(CFloat(v))
    case JInt(_) => Value(CFloat(v))
    case JFloat(_) => Value(CFloat(v))
    case JString(s) => if cfg.isFloatText(s) then Value(CFloat(v)) else ValueError
    case _ => TypeError
  }

  /** int(v); the line was decoded as UTF-8, so a string value is a unicode object */
  function ToInt(v: Json): Conv
  {
    match v
    case JBool(b) => Value(CInt(if b then 1 else 0))
    case JInt(i) => Value(CInt(i))
    case JFloat(t) => Value(CTrunc(t))
    case JString(s) => (match ParseUnicodeInt(s) case Some(i) => Value(CInt(i)) case None => ValueError)
    case _ => TypeError
  }

  /** The cell clean_data makes of one value of the given data type. */
  function Convert(cfg: Config, dataType: string, v: Json): (r: Conv)
    ensures dataType != "float" && dataType != "integer" ==>
              (r.Value? <==> !(dataType == "boolean" && StrRaises(v)))
    ensures dataType == "boolean" && StrRaises(v) ==> r == EncodeError
    ensures r.EncodeError? ==> dataType == "boolean"
  {
    if dataType == "float" then ToFloat(cfg, v)
    else if dataType == "integer" then ToInt(v)
    else if dataType == "boolean" then
      if StrRaises(v) then EncodeError else Value(CBool(Lower(Str(v)) == "true"))
    else Value(CText(Str(v)))
  }

  /** int() reads back every integer printed as text; only containers and None raise TypeError. */
  lemma {:induction false} ToIntOfText(i: int)
    ensures ToInt(JString(IntToString(i))) == Value(CInt(i))
    ensures ToInt(JInt(i)) == Value(CInt(i))
  {
    UnicodeIntRoundTrip(i);
    ToIntOfParsed(IntToString(i), i);
  }

  lemma ToIntOfParsed(s: string, i: int)
    requires ParseUnicodeInt(s) == Some(i)
    ensures ToInt(JString(s)) == Value(CInt(i))
  {
  }

  lemma ConvertRaisesOnContainers(cfg: Config, dataType: string, v: Json)
    requires dataType == "float" || dataType == "integer"
    ensures Convert(cfg, dataType, v).TypeError? <==> v.JNull? || v.JArray? || v.JObject?
  {
  }

  // ---------------------------------------------------------------------------
  // clean_data
  // ---------------------------------------------------------------------------

  /** new_data = {'hash_code': ...} (plus 'parent_hash_code'), and the root fragment pointing at it. */
  function Start(hash: string, parentHash: Option<string>, rootName: string): State
  {
    var row := map[HashKey := CText(hash)];
    State(if parentHash.Some? then row[ParentKey := CText(parentHash.value)] else row, [(rootName, Own)])
  }

  /** Empty dicts and lists are skipped, and so are keys the schema does not know. */
  predicate Skipped(cfg: Config, fullKey: string, value: Json)
  {
    (value.JObject? && value.fields == []) || (value.JArray? && value.items == [])
      || fullKey !in cfg.schema
  }

  /**
   * What the recursive calls of clean_data give for one field: the cleaned
   * dict of a record, and the cleaned elements of a list. The definitions
   * below have them for every field, and only the branch the schema picks
   * reads them; cleaning changes nothing outside its result, so having them
   * early does not change any outcome.
   */
  datatype Inner = Inner(record: Outcome, elements: seq<Outcome>)

  /** clean_data(json.dumps(data), parent, parentHash, isArray) once the root fragment's name is chosen. */
  function Clean(cfg: Config, data: Json, parent: Option<string>, parentHash: Option<string>,
                 isArray: bool, rootName: string): Outcome
    decreases data, 3
  {
    var ctx := Ctx(parent, isArray, cfg.hash(data));
    var st := Start(ctx.hash, parentHash, rootName);
    if !Truthy(data) then Going(st)
    else if !data.JObject? then Crashed  // data.iteritems() on a list or scalar
    else Fields(cfg, ctx, st, data.fields, Inners(cfg, ctx, data), |data.fields|)
  }

  /** The recursive calls of every field of a dict. */
  function Inners(cfg: Config, ctx: Ctx, data: Json): (r: seq<Inner>)
    requires data.JObject?
    ensures |r| == |data.fields|
    decreases data, 2
  {
    seq(|data.fields|, i requires 0 <= i < |data.fields| => InnerOf(cfg, ctx, data.fields[i].0, data.fields[i].1))
  }

  /** clean_data(json.dumps(value), full_key, None, False) of a dict, and of each element of a list. */
  function InnerOf(cfg: Config, ctx: Ctx, key: string, value: Json): Inner
    decreases value, 4
  {
    match CellKey(key)
    case None => Inner(Crashed, [])
    case Some(k) =>
      var fullKey := FieldKeys(ctx, key, k).0;
      Inner(if value.JObject? then Clean(cfg, value, Some(fullKey), None, false, "root") else Crashed,
            if value.JArray? then ElementResults(cfg, ctx.hash, fullKey, value) else [])
  }

  /** clean_data(json.dumps(v), full_key, hash_code, True) of each element v of a list. */
  function ElementResults(cfg: Config, hash: string, fullKey: string, list: Json): (r: seq<Outcome>)
    requires list.JArray?
    ensures |r| == |list.items|
    decreases list, 2
  {
    seq(|list.items|, j requires 0 <= j < |list.items| => Clean(cfg, list.items[j], Some(fullKey), Some(hash), true, "root"))
  }

  /** The loop over data.iteritems(), after its first n fields. */
  function Fields(cfg: Config, ctx: Ctx, st0: State, fields: seq<(string, Json)>, inners: seq<Inner>, n: nat): Outcome
    requires |inners| == |fields| && n <= |fields|
  {
    if n == 0 then Going(st0)
    else match Fields(cfg, ctx, st0, fields, inners, n - 1)
      case Going(st) => Field(cfg, ctx, st, fields[n - 1].0, fields[n - 1].1, inners[n - 1])
      case o => o
  }

  /** One pass of the loop body, for the field key: value. */
  function Field(cfg: Config, ctx: Ctx, st: State, key: string, value: Json, inner: Inner): Outcome
  {
    match CellKey(key)
    case None => Crashed
    case Some(k) =>
      var (fullKey, dictKey) := FieldKeys(ctx, key, k);
      if Skipped(cfg, fullKey, value) then Going(st)
      else
        var parts := Split(cfg.schema[fullKey], '-');
        if |parts| < 2 then Crashed  // data_type_mode[1] raises IndexError
        else if parts[0] == "record" && parts[1] == "repeated" then
          if !value.JArray? then Rejected
          else if !cfg.childTable then Going(State(st.row[dictKey := CJson(value)], st.frags))
          else Elements(fullKey, State(st.row, EnsureList(st.frags, fullKey)), inner.elements, |inner.elements|)
        else if parts[0] == "record" then
          if !value.JObject? then Rejected
          else
            match inner.record
            case Going(t) => Going(Merge(st, t, |t.frags|))
            case _ => Crashed  // t.iteritems() on the None of a rejected record
        else Scalar(cfg, ctx.hash, st, fullKey, dictKey, parts, value)
  }

  /** A field whose type is not record. */
  function Scalar(cfg: Config, hash: string, st: State, fullKey: string, dictKey: string,
                  parts: seq<string>, value: Json): Outcome
    requires |parts| >= 2
  {
    var forced := |parts| >= 3 && parts[2] == "forced";
    if !Truthy(value) then Going(State(st.row[dictKey := CNull], st.frags))
    else if parts[1] == "repeated" then
      if !value.JArray? then Rejected
      else if !cfg.childTable then Going(State(st.row[dictKey := CJson(value)], st.frags))
      else ChildRows(cfg, hash, fullKey, parts[0], forced, State(st.row, EnsureList(st.frags, fullKey)), value.items, |value.items|)
    else
      match Convert(cfg, parts[0], value)
      case Value(c) => Going(State(st.row[dictKey := c], st.frags))
      case ValueError =>
        if forced then Going(State(st.row[dictKey := CNull], st.frags))
        else if StrRaises(value) then Crashed  // str(value) in the error message raises
        else Rejected
      case TypeError | EncodeError => Crashed
  }

  /** {"value": cleaned_v, "parent_hash_code": hash_code} */
  function ChildRow(c: Cell, hash: string): Row
  {
    map["value" := c, ParentKey := CText(hash)]
  }

  /** The loop over the elements of a repeated scalar in child_table mode, after m of them. */
  function ChildRows(cfg: Config, hash: string, fullKey: string, dataType: string, forced: bool,
                     st0: State, items: seq<Json>, m: nat): Outcome
    requires m <= |items|
  {
    if m == 0 then Going(st0)
    else match ChildRows(cfg, hash, fullKey, dataType, forced, st0, items, m - 1)
      case Going(st) => ChildStep(cfg, hash, fullKey, dataType, forced, st, items[m - 1])
      case o => o
  }

  /** One element of a repeated scalar: convert it and append its child row. */
  function ChildStep(cfg: Config, hash: string, fullKey: string, dataType: string, forced: bool,
                     st: State, v: Json): Outcome
  {
    match Convert(cfg, dataType, v)
    case TypeError | EncodeError => Crashed
    case ValueError =>
      if !forced then Rejected
      else AppendTo(st, fullKey, ChildRow(CNull, hash))
    case Value(c) => AppendTo(st, fullKey, ChildRow(c, hash))
  }

  function AppendTo(st: State, name: string, row: Row): Outcome
  {
    match AppendRow(st.frags, name, row)
    case Some(f) => Going(State(st.row, f))
    case None => Crashed
  }

  /** The loop over the elements of a repeated record in child_table mode, after m of them. */
  function Elements(fullKey: string, st0: State, results: seq<Outcome>, m: nat): Outcome
    requires m <= |results|
  {
    if m == 0 then Going(st0)
    else match Elements(fullKey, st0, results, m - 1)
      case Going(st) => ElementStep(st, fullKey, results[m - 1])
      case o => o
  }

  /** One element of a repeated record: a rejected element raises, a cleaned one adds its fragments. */
  function ElementStep(st: State, fullKey: string, r: Outcome): Outcome
  {
    match r
    case Going(t) => AddElement(st, fullKey, t, |t.frags|)
    case _ => Crashed  // iterating over the None of a rejected element
  }

  /**
   * The loop over one element's fragments, after n of them: its root row is
   * appended to the field's fragment, any other fragment is stored under
   * its sanitised name, replacing what was there.
   */
  function AddElement(st0: State, fullKey: string, t: State, n: nat): Outcome
    requires n <= |t.frags|
  {
    if n == 0 then Going(st0)
    else match AddElement(st0, fullKey, t, n - 1)
      case Going(st) => AddStep(st, fullKey, t.row, t.frags[n - 1])
      case o => o
  }

  /** One fragment of an element: its root row is appended, anything else stored under its sanitised name. */
  function AddStep(st: State, fullKey: string, row: Row, e: (string, Frag)): Outcome
  {
    if e.0 == "root" then AppendTo(st, fullKey, row)
    else Going(State(st.row, Put(st.frags, Sanitise(e.0), e.1)))
  }

  /**
   * The loop over a nested record's fragments, after n of them: its root row
   * is merged into new_data without its hash_code, and its lists are copied.
   */
  function Merge(st0: State, t: State, n: nat): State
    requires n <= |t.frags|
  {
    if n == 0 then st0
    else
      var st := Merge(st0, t, n - 1);
      var (name, content) := t.frags[n - 1];
      var row := if name == "root" then st.row + (t.row - {HashKey}) else st.row;
      State(row, if content.Rows? then Put(st.frags, name, content) else st.frags)
  }

  /** What clean_data returns for a whole line, and the shard value it appends to shard_values. */
  datatype LineResult = LineResult(outcome: Outcome, shard: Option<string>)

  /** clean_data(line, line_num) at the root. None stands for a line that does not parse. */
  function CleanLine(cfg: Config, line: Option<Json>): LineResult
  {
    if line.None? then LineResult(Rejected, None)
    else if cfg.shardKey.None? then LineResult(Clean(cfg, line.value, None, None, false, "root"), None)
    else
      match ShardValue(line.value, cfg.shardKey.value)
      case Err(_) => LineResult(Crashed, None)
      case Ok(None) => LineResult(Rejected, None)
      case Ok(Some(s)) => LineResult(Clean(cfg, line.value, None, None, false, "root/" + s), Some(s))
  }

  // ---------------------------------------------------------------------------
  // A return or a raise ends each loop
  // ---------------------------------------------------------------------------

  lemma {:induction false} FieldsStay(cfg: Config, ctx: Ctx, st0: State, fields: seq<(string, Json)>,
                                      inners: seq<Inner>, n: nat, m: nat)
    requires |inners| == |fields| && n <= m <= |fields|
    requires !Fields(cfg, ctx, st0, fields, inners, n).Going?
    ensures Fields(cfg, ctx, st0, fields, inners, m) == Fields(cfg, ctx, st0, fields, inners, n)
    decreases m
  {
    if m > n {
      FieldsStay(cfg, ctx, st0, fields, inners, n, m - 1);
    }
  }

  lemma {:induction false} ElementsStay(fullKey: string, st0: State, results: seq<Outcome>, n: nat, m: nat)
    requires n <= m <= |results|
    requires !Elements(fullKey, st0, results, n).Going?
    ensures Elements(fullKey, st0, results, m) == Elements(fullKey, st0, results, n)
    decreases m
  {
    if m > n {
      ElementsStay(fullKey, st0, results, n, m - 1);
    }
  }

  lemma {:induction false} ChildRowsStay(cfg: Config, hash: string, fullKey: string, dataType: string, forced: bool,
                                         st0: State, items: seq<Json>, n: nat, m: nat)
    requires n <= m <= |items|
    requires !ChildRows(cfg, hash, fullKey, dataType, forced, st0, items, n).Going?
    ensures ChildRows(cfg, hash, fullKey, dataType, forced, st0, items, m)
         == ChildRows(cfg, hash, fullKey, dataType, forced, st0, items, n)
    decreases m
  {
    if m > n {
      ChildRowsStay(cfg, hash, fullKey, dataType, forced, st0, items, n, m - 1);
    }
  }

  lemma {:induction false} AddElementStay(st0: State, fullKey: string, t: State, n: nat, m: nat)
    requires n <= m <= |t.frags|
    requires !AddElement(st0, fullKey, t, n).Going?
    ensures AddElement(st0, fullKey, t, m) == AddElement(st0, fullKey, t, n)
    decreases m
  {
    if m > n {
      AddElementStay(st0, fullKey, t, n, m - 1);
    }
  }

  // ---------------------------------------------------------------------------
  // What every cleaned row and fragment carries
  // ---------------------------------------------------------------------------

  /** Every row of every list fragment carries parent_hash_code. */
  predicate Linked(frags: Frags)
  {
    forall e :: e in frags && e.1.Rows? ==> forall r :: r in e.1.rows ==> ParentKey in r
  }

  /** A fragment name made below parent: longer than it, and holding a separator. */
  predicate Deeper(parent: string, name: string)
  {
    |name| > |parent| && ('.' in name || '_' in name)
  }

  /** Below the root, new_data_fragments holds 'root' first and, besides it, only lists named below parent. */
  predicate Nested(parent: string, frags: Frags)
  {
    |frags| >= 1 && frags[0] == ("root", Own)
    && forall e :: e in frags ==> e == ("root", Own) || (e.1.Rows? && Deeper(parent, e.0))
  }

  /** The invariant of the loop over data.iteritems() in a call of clean_data below parent. */
  predicate Inv(parent: Option<string>, st: State)
  {
    HashKey in st.row && Linked(st.frags) && DistinctNames(st.frags)
    && (parent.Some? ==> Nested(parent.value, st.frags))
  }

  /** What the cleaned elements of a list under fullKey carry when they go through. */
  predicate ElementsCarried(fullKey: string, results: seq<Outcome>)
  {
    forall o :: o in results && o.Going? ==> Inv(Some(fullKey), o.st) && ParentKey in o.st.row
  }

  /** What the recursive calls of a field carry when they go through. */
  predicate InnerCarried(ctx: Ctx, key: string, inner: Inner)
  {
    CellKey(key).Some? ==>
      var fullKey := FieldKeys(ctx, key, CellKey(key).value).0;
      (inner.record.Going? ==> Inv(Some(fullKey), inner.record.st))
      && ElementsCarried(fullKey, inner.elements)
  }

  lemma SanitiseKeepsSeparator(name: string)
    requires '.' in name || '_' in name
    ensures '_' in Sanitise(name)
  {
    var i :| 0 <= i < |name| && (name[i] == '.' || name[i] == '_');
    assert Sanitise(name)[i] == SanitiseChar(name[i]);
  }

  /** Storing a list of linked rows under a name below parent keeps the invariant. */
  lemma PutKeeps(parent: Option<string>, st: State, name: string, rows: seq<Row>)
    requires Inv(parent, st)
    requires forall r :: r in rows ==> ParentKey in r
    requires parent.Some? ==> Deeper(parent.value, name)
    ensures Inv(parent, State(st.row, Put(st.frags, name, Rows(rows))))
  {
    PutDistinct(st.frags, name, Rows(rows));
    PutEntries(st.frags, name, Rows(rows));
    if parent.Some? {
      assert name != "root";
    }
  }

  lemma AppendKeeps(parent: Option<string>, st: State, name: string, row: Row)
    requires Inv(parent, st) && ParentKey in row
    requires parent.Some? ==> Deeper(parent.value, name)
    requires AppendTo(st, name, row).Going?
    ensures Inv(parent, AppendTo(st, name, row).st)
  {
    var rs := Find(st.frags, name).value.rows;
    FindIn(st.frags, name);
    PutKeeps(parent, st, name, rs + [row]);
  }

  lemma EnsureListKeeps(parent: Option<string>, st: State, name: string)
    requires Inv(parent, st)
    requires parent.Some? ==> Deeper(parent.value, name)
    ensures Inv(parent, State(st.row, EnsureList(st.frags, name)))
  {
    if Find(st.frags, name).None? {
      PutKeeps(parent, st, name, []);
    }
  }

  /** What clean_data's result carries, at any depth. */
  lemma {:induction false} CleanCarries(cfg: Config, data: Json, parent: Option<string>, parentHash: Option<string>,
                                        isArray: bool, rootName: string)
    requires parent.Some? ==> rootName == "root"
    requires Clean(cfg, data, parent, parentHash, isArray, rootName).Going?
    ensures var st := Clean(cfg, data, parent, parentHash, isArray, rootName).st;
      Inv(parent, st) && (parentHash.Some? ==> ParentKey in st.row)
    decreases data, 3
  {
    var ctx := Ctx(parent, isArray, cfg.hash(data));
    var st0 := Start(ctx.hash, parentHash, rootName);
    assert Inv(parent, st0);
    if Truthy(data) && data.JObject? {
      var inners := Inners(cfg, ctx, data);
      forall i | 0 <= i < |data.fields|
        ensures InnerCarried(ctx, data.fields[i].0, inners[i])
      {
        InnerOfCarries(cfg, ctx, data.fields[i].0, data.fields[i].1);
      }
      FieldsCarry(cfg, ctx, st0, data.fields, inners, |data.fields|);
    }
  }

  lemma {:induction false} InnerOfCarries(cfg: Config, ctx: Ctx, key: string, value: Json)
    ensures InnerCarried(ctx, key, InnerOf(cfg, ctx, key, value))
    decreases value, 4
  {
    if CellKey(key).Some? {
      var fullKey := FieldKeys(ctx, key, CellKey(key).value).0;
      if value.JObject? && Clean(cfg, value, Some(fullKey), None, false, "root").Going? {
        CleanCarries(cfg, value, Some(fullKey), None, false, "root");
      }
      if value.JArray? {
        ElementResultsCarry(cfg, ctx.hash, fullKey, value);
      }
    }
  }

  lemma {:induction false} ElementResultsCarry(cfg: Config, hash: string, fullKey: string, list: Json)
    requires list.JArray?
    ensures ElementsCarried(fullKey, ElementResults(cfg, hash, fullKey, list))
    decreases list, 2
  {
    var rs := ElementResults(cfg, hash, fullKey, list);
    forall o | o in rs && o.Going?
      ensures Inv(Some(fullKey), o.st) && ParentKey in o.st.row
    {
      var j :| 0 <= j < |rs| && rs[j] == o;
      CleanCarries(cfg, list.items[j], Some(fullKey), Some(hash), true, "root");
    }
  }

  lemma {:induction false} FieldsCarry(cfg: Config, ctx: Ctx, st0: State, fields: seq<(string, Json)>,
                                       inners: seq<Inner>, n: nat)
    requires |inners| == |fields| && n <= |fields|
    requires forall i :: 0 <= i < |fields| ==> InnerCarried(ctx, fields[i].0, inners[i])
    requires Inv(ctx.parent, st0) && Fields(cfg, ctx, st0, fields, inners, n).Going?
    ensures Inv(ctx.parent, Fields(cfg, ctx, st0, fields, inners, n).st)
    ensures st0.row.Keys <= Fields(cfg, ctx, st0, fields, inners, n).st.row.Keys
  {
    if n > 0 {
      FieldsCarry(cfg, ctx, st0, fields, inners, n - 1);
      FieldCarries(cfg, ctx, Fields(cfg, ctx, st0, fields, inners, n - 1).st, fields[n - 1].0, fields[n - 1].1, inners[n - 1]);
    }
  }

  lemma FieldCarries(cfg: Config, ctx: Ctx, st: State, key: string, value: Json, inner: Inner)
    requires InnerCarried(ctx, key, inner)
    requires Inv(ctx.parent, st) && Field(cfg, ctx, st, key, value, inner).Going?
    ensures Inv(ctx.parent, Field(cfg, ctx, st, key, value, inner).st)
    ensures st.row.Keys <= Field(cfg, ctx, st, key, value, inner).st.row.Keys
  {
    var k := CellKey(key).value;
    var (fullKey, dictKey) := FieldKeys(ctx, key, k);
    if !Skipped(cfg, fullKey, value) {
      assert ctx.parent.Some? ==> Deeper(ctx.parent.value, fullKey) by {
        if ctx.parent.Some? {
          assert fullKey[|ctx.parent.value|] in fullKey;
        }
      }
      var parts := Split(cfg.schema[fullKey], '-');
      if parts[0] == "record" && parts[1] == "repeated" {
        if cfg.childTable {
          EnsureListKeeps(ctx.parent, st, fullKey);
          ElementsCarry(ctx, fullKey, State(st.row, EnsureList(st.frags, fullKey)), inner.elements, |inner.elements|);
        }
      } else if parts[0] == "record" {
        var t := inner.record.st;
        MergeCarries(ctx, fullKey, st, t, |t.frags|);
      } else {
        ScalarCarries(cfg, ctx, st, fullKey, dictKey, parts, value);
      }
    }
  }

  lemma ScalarCarries(cfg: Config, ctx: Ctx, st: State, fullKey: string, dictKey: string,
                      parts: seq<string>, value: Json)
    requires |parts| >= 2
    requires Inv(ctx.parent, st) && Scalar(cfg, ctx.hash, st, fullKey, dictKey, parts, value).Going?
    requires ctx.parent.Some? ==> Deeper(ctx.parent.value, fullKey)
    ensures Inv(ctx.parent, Scalar(cfg, ctx.hash, st, fullKey, dictKey, parts, value).st)
    ensures st.row.Keys <= Scalar(cfg, ctx.hash, st, fullKey, dictKey, parts, value).st.row.Keys
  {
    if Truthy(value) && parts[1] == "repeated" && cfg.childTable {
      var forced := |parts| >= 3 && parts[2] == "forced";
      EnsureListKeeps(ctx.parent, st, fullKey);
      ChildRowsCarry(cfg, ctx, fullKey, parts[0], forced, State(st.row, EnsureList(st.frags, fullKey)), value.items, |value.items|);
    }
  }

  lemma {:induction false} ChildRowsCarry(cfg: Config, ctx: Ctx, fullKey: string, dataType: string, forced: bool,
                                          st0: State, items: seq<Json>, m: nat)
    requires m <= |items|
    requires Inv(ctx.parent, st0) && ChildRows(cfg, ctx.hash, fullKey, dataType, forced, st0, items, m).Going?
    requires ctx.parent.Some? ==> Deeper(ctx.parent.value, fullKey)
    ensures Inv(ctx.parent, ChildRows(cfg, ctx.hash, fullKey, dataType, forced, st0, items, m).st)
    ensures ChildRows(cfg, ctx.hash, fullKey, dataType, forced, st0, items, m).st.row == st0.row
  {
    if m > 0 {
      ChildRowsCarry(cfg, ctx, fullKey, dataType, forced, st0, items, m - 1);
      var st := ChildRows(cfg, ctx.hash, fullKey, dataType, forced, st0, items, m - 1).st;
      var c := Convert(cfg, dataType, items[m - 1]);
      AppendKeeps(ctx.parent, st, fullKey, ChildRow(if c.Value? then c.c else CNull, ctx.hash));
    }
  }

  lemma {:induction false} ElementsCarry(ctx: Ctx, fullKey: string, st0: State, results: seq<Outcome>, m: nat)
    requires m <= |results| && ElementsCarried(fullKey, results)
    requires Inv(ctx.parent, st0) && Elements(fullKey, st0, results, m).Going?
    requires ctx.parent.Some? ==> Deeper(ctx.parent.value, fullKey)
    ensures Inv(ctx.parent, Elements(fullKey, st0, results, m).st)
    ensures Elements(fullKey, st0, results, m).st.row == st0.row
  {
    if m > 0 {
      ElementsCarry(ctx, fullKey, st0, results, m - 1);
      var st := Elements(fullKey, st0, results, m - 1).st;
      assert results[m - 1] in results;
      var t := results[m - 1].st;
      AddElementCarries(ctx, fullKey, st, t, |t.frags|);
    }
  }

  lemma {:induction false} AddElementCarries(ctx: Ctx, fullKey: string, st0: State, t: State, n: nat)
    requires n <= |t.frags|
    requires Inv(ctx.parent, st0) && Nested(fullKey, t.frags) && Linked(t.frags) && ParentKey in t.row
    requires ctx.parent.Some? ==> Deeper(ctx.parent.value, fullKey)
    requires AddElement(st0, fullKey, t, n).Going?
    ensures Inv(ctx.parent, AddElement(st0, fullKey, t, n).st)
    ensures AddElement(st0, fullKey, t, n).st.row == st0.row
  {
    if n > 0 {
      AddElementCarries(ctx, fullKey, st0, t, n - 1);
      var st := AddElement(st0, fullKey, t, n - 1).st;
      var (name, content) := t.frags[n - 1];
      assert t.frags[n - 1] in t.frags;
      if name == "root" {
        AppendKeeps(ctx.parent, st, fullKey, t.row);
      } else {
        SanitiseKeepsSeparator(name);
        PutKeeps(ctx.parent, st, Sanitise(name), content.rows);
      }
    }
  }

  lemma {:induction false} MergeCarries(ctx: Ctx, fullKey: string, st0: State, t: State, n: nat)
    requires n <= |t.frags|
    requires Inv(ctx.parent, st0) && Nested(fullKey, t.frags) && Linked(t.frags)
    requires ctx.parent.Some? ==> Deeper(ctx.parent.value, fullKey)
    ensures Inv(ctx.parent, Merge(st0, t, n))
    ensures st0.row.Keys <= Merge(st0, t, n).row.Keys
  {
    if n > 0 {
      MergeCarries(ctx, fullKey, st0, t, n - 1);
      var st := Merge(st0, t, n - 1);
      var (name, content) := t.frags[n - 1];
      assert t.frags[n - 1] in t.frags;
      var row := if name == "root" then st.row + (t.row - {HashKey}) else st.row;
      if content.Rows? {
        PutKeeps(ctx.parent, State(row, st.frags), name, content.rows);
      }
    }
  }

  /** Every cleaned line's root row carries hash_code and every child row parent_hash_code. */
  lemma CleanLineCarries(cfg: Config, line: Option<Json>)
    requires CleanLine(cfg, line).outcome.Going?
    ensures var st := CleanLine(cfg, line).outcome.st;
      HashKey in st.row && Linked(st.frags) && DistinctNames(st.frags)
  {
    var data := line.value;
    if cfg.shardKey.None? {
      CleanCarries(cfg, data, None, None, false, "root");
    } else {
      var s := ShardValue(data, cfg.shardKey.value).value.value;
      CleanCarries(cfg, data, None, None, false, "root/" + s);
    }
  }

  // ---------------------------------------------------------------------------
  // Child tables
  // ---------------------------------------------------------------------------

  /** The cell stored for one element of a repeated scalar: None for a forced value that does not convert. */
  function ChildCell(cfg: Config, dataType: string, v: Json): Cell
  {
    match Convert(cfg, dataType, v)
    case Value(c) => c
    case _ => CNull
  }

  /** The child rows of a list of scalars, one per element, in order. */
  function ChildRowsOf(cfg: Config, dataType: string, hash: string, items: seq<Json>): (rs: seq<Row>)
    ensures |rs| == |items|
  {
    if items == [] then []
    else ChildRowsOf(cfg, dataType, hash, items[..|items| - 1]) + [ChildRow(ChildCell(cfg, dataType, items[|items| - 1]), hash)]
  }

  /**
   * When every element converts (or the type is forced), each element of a
   * repeated scalar adds one row {"value", "parent_hash_code": hash} to the
   * field's fragment, in order, and nothing else changes.
   */
  lemma {:induction false} ChildRowsAppend(cfg: Config, hash: string, fullKey: string, dataType: string, forced: bool,
                                           st0: State, items: seq<Json>, m: nat, rs0: seq<Row>)
    requires m <= |items|
    requires Find(st0.frags, fullKey) == Some(Rows(rs0))
    requires forall k :: 0 <= k < m ==> !Convert(cfg, dataType, items[k]).TypeError? && !Convert(cfg, dataType, items[k]).EncodeError?
    requires !forced ==> forall k :: 0 <= k < m ==> Convert(cfg, dataType, items[k]).Value?
    ensures var o := ChildRows(cfg, hash, fullKey, dataType, forced, st0, items, m);
      o.Going? && o.st.row == st0.row
      && Find(o.st.frags, fullKey) == Some(Rows(rs0 + ChildRowsOf(cfg, dataType, hash, items[..m])))
      && forall n :: n != fullKey ==> Find(o.st.frags, n) == Find(st0.frags, n)
  {
    if m > 0 {
      ChildRowsAppend(cfg, hash, fullKey, dataType, forced, st0, items, m - 1, rs0);
      assert items[..m][..m - 1] == items[..m - 1];
      var rows := rs0 + ChildRowsOf(cfg, dataType, hash, items[..m - 1]);
      var st := ChildRows(cfg, hash, fullKey, dataType, forced, st0, items, m - 1).st;
      var row := ChildRow(ChildCell(cfg, dataType, items[m - 1]), hash);
      assert ChildRowsOf(cfg, dataType, hash, items[..m]) == ChildRowsOf(cfg, dataType, hash, items[..m - 1]) + [row];
      assert AppendRow(st.frags, fullKey, row) == Some(Put(st.frags, fullKey, Rows(rows + [row])));
      assert ChildRows(cfg, hash, fullKey, dataType, forced, st0, items, m) == AppendTo(st, fullKey, row);
      assert rows + [row] == rs0 + ChildRowsOf(cfg, dataType, hash, items[..m]);
      var o := ChildRows(cfg, hash, fullKey, dataType, forced, st0, items, m);
      assert o == Going(State(st.row, Put(st.frags, fullKey, Rows(rows + [row]))));
      forall n {
        FindPut(st.frags, fullKey, Rows(rows + [row]), n);
      }
    } else {
      assert items[..m] == [] && rs0 + [] == rs0;
    }
  }

  /** A forced type never rejects: a value that does not convert is stored as None. */
  lemma ForcedNeverRejects(cfg: Config, hash: string, fullKey: string, dataType: string,
                           st0: State, items: seq<Json>, m: nat)
    requires m <= |items|
    ensures ChildRows(cfg, hash, fullKey, dataType, true, st0, items, m) != Rejected
  {
    if m > 0 {
      ForcedNeverRejects(cfg, hash, fullKey, dataType, st0, items, m - 1);
    }
  }

  /** The root row of a cleaned element (empty when it did not clean). */
  function RootRow(r: Outcome): Row
  {
    if r.Going? then r.st.row else map[]
  }

  /** rows followed by the root rows of the first m cleaned elements, in order. */
  function AppendRoots(rows: seq<Row>, results: seq<Outcome>, m: nat): (rs: seq<Row>)
    requires m <= |results|
  {
    if m == 0 then rows else AppendRoots(rows, results, m - 1) + [RootRow(results[m - 1])]
  }

  /** AppendRoots keeps the rows it starts from and puts element j's root row at position |rows| + j. */
  lemma {:induction false} AppendRootsAt(rows: seq<Row>, results: seq<Outcome>, m: nat)
    requires m <= |results|
    ensures var rs := AppendRoots(rows, results, m);
      |rs| == |rows| + m
      && (forall j :: 0 <= j < |rows| ==> rs[j] == rows[j])
      && (forall j :: 0 <= j < m ==> rs[|rows| + j] == RootRow(results[j]))
  {
    if m > 0 {
      AppendRootsAt(rows, results, m - 1);
    }
  }

  /**
   * One element's fragments add exactly its root row to the field's fragment:
   * its other fragments are named below the field, so they never land on it.
   */
  lemma {:induction false} AddElementOneRow(st0: State, fullKey: string, t: State, n: nat, rs: seq<Row>)
    requires 1 <= n <= |t.frags|
    requires Nested(fullKey, t.frags) && DistinctNames(t.frags)
    requires Find(st0.frags, fullKey) == Some(Rows(rs))
    requires AddElement(st0, fullKey, t, n).Going?
    ensures Find(AddElement(st0, fullKey, t, n).st.frags, fullKey) == Some(Rows(rs + [t.row]))
  {
    if n > 1 {
      AddElementOneRow(st0, fullKey, t, n - 1, rs);
      var (name, content) := t.frags[n - 1];
      assert t.frags[n - 1] in t.frags;
      assert t.frags[n - 1] != t.frags[0];
      assert |Sanitise(name)| > |fullKey|;
      FindPut(AddElement(st0, fullKey, t, n - 1).st.frags, Sanitise(name), content, fullKey);
    } else {
      FindPut(st0.frags, fullKey, Rows(rs + [t.row]), fullKey);
    }
  }

  /** A cleaned element adds exactly its root row to the field's fragment. */
  lemma ElementStepAddsRow(st: State, fullKey: string, r: Outcome, rs: seq<Row>)
    requires r.Going? && Nested(fullKey, r.st.frags) && DistinctNames(r.st.frags)
    requires Find(st.frags, fullKey) == Some(Rows(rs))
    requires ElementStep(st, fullKey, r).Going?
    ensures Find(ElementStep(st, fullKey, r).st.frags, fullKey) == Some(Rows(rs + [RootRow(r)]))
  {
    AddElementOneRow(st, fullKey, r.st, |r.st.frags|, rs);
  }

  /** In child_table mode each element of a repeated record adds one row to the field's fragment, in order. */
  lemma {:induction false} ElementsOneRowEach(fullKey: string, st0: State, results: seq<Outcome>, m: nat, rs0: seq<Row>)
    requires m <= |results| && ElementsCarried(fullKey, results)
    requires Find(st0.frags, fullKey) == Some(Rows(rs0))
    requires Elements(fullKey, st0, results, m).Going?
    ensures Find(Elements(fullKey, st0, results, m).st.frags, fullKey) == Some(Rows(AppendRoots(rs0, results, m)))
  {
    if m > 0 {
      ElementsOneRowEach(fullKey, st0, results, m - 1, rs0);
      var st := Elements(fullKey, st0, results, m - 1).st;
      var r := results[m - 1];
      assert r in results;
      ElementStepAddsRow(st, fullKey, r, AppendRoots(rs0, results, m - 1));
    }
  }

  /** The root row an element of a repeated record contributes (empty when it does not clean). */
  function ElementRow(cfg: Config, hash: string, fullKey: string, v: Json): Row
  {
    RootRow(Clean(cfg, v, Some(fullKey), Some(hash), true, "root"))
  }

  /**
   * A repeated record in child_table mode: the field's fragment gets the root
   * row of each cleaned element, in order, each carrying parent_hash_code.
   */
  lemma RecordListRows(cfg: Config, ctx: Ctx, st: State, key: string, value: Json, rs0: seq<Row>)
    requires CellKey(key).Some? && value.JArray? && value.items != [] && cfg.childTable
    requires var fullKey := FieldKeys(ctx, key, CellKey(key).value).0;
      fullKey in cfg.schema && |Split(cfg.schema[fullKey], '-')| >= 2
      && Split(cfg.schema[fullKey], '-')[0] == "record" && Split(cfg.schema[fullKey], '-')[1] == "repeated"
      && Find(EnsureList(st.frags, fullKey), fullKey) == Some(Rows(rs0))
    requires Field(cfg, ctx, st, key, value, InnerOf(cfg, ctx, key, value)).Going?
    ensures var fullKey := FieldKeys(ctx, key, CellKey(key).value).0;
      var f := Find(Field(cfg, ctx, st, key, value, InnerOf(cfg, ctx, key, value)).st.frags, fullKey);
      f.Some? && f.value.Rows?
      && |f.value.rows| == |rs0| + |value.items|
      && (forall j :: 0 <= j < |rs0| ==> f.value.rows[j] == rs0[j])
      && (forall j :: 0 <= j < |value.items| ==> f.value.rows[|rs0| + j] == ElementRow(cfg, ctx.hash, fullKey, value.items[j]))
  {
    var fullKey := FieldKeys(ctx, key, CellKey(key).value).0;
    var results := ElementResults(cfg, ctx.hash, fullKey, value);
    ElementResultsCarry(cfg, ctx.hash, fullKey, value);
    assert InnerOf(cfg, ctx, key, value).elements == results;
    assert Field(cfg, ctx, st, key, value, InnerOf(cfg, ctx, key, value))
        == Elements(fullKey, State(st.row, EnsureList(st.frags, fullKey)), results, |results|);
    ElementsOneRowEach(fullKey, State(st.row, EnsureList(st.frags, fullKey)), results, |results|, rs0);
    AppendRootsAt(rs0, results, |results|);
    forall j | 0 <= j < |value.items|
      ensures RootRow(results[j]) == ElementRow(cfg, ctx.hash, fullKey, value.items[j])
    {
    }
  }

  /** A nested record's fields are merged into the row without its own hash_code, which keeps the parent's. */
  lemma {:induction false} MergeRow(st0: State, fullKey: string, t: State, n: nat)
    requires 1 <= n <= |t.frags|
    requires Nested(fullKey, t.frags) && DistinctNames(t.frags)
    ensures Merge(st0, t, n).row == st0.row + (t.row - {HashKey})
    ensures HashKey in st0.row ==> Merge(st0, t, n).row[HashKey] == st0.row[HashKey]
  {
    if n > 1 {
      MergeRow(st0, fullKey, t, n - 1);
      assert t.frags[n - 1] in t.frags;
      assert t.frags[n - 1] != t.frags[0];
    }
  }

  // ---------------------------------------------------------------------------
  // Skips, nulls and rejections
  // ---------------------------------------------------------------------------

  /** A dict whose every field is skipped cleans to the bare row with its hash codes. */
  lemma {:induction false} AllSkipped(cfg: Config, ctx: Ctx, st0: State, fields: seq<(string, Json)>,
                                      inners: seq<Inner>, n: nat)
    requires |inners| == |fields| && n <= |fields|
    requires forall i :: 0 <= i < n ==>
      (CellKey(fields[i].0).Some? && Skipped(cfg, FieldKeys(ctx, fields[i].0, CellKey(fields[i].0).value).0, fields[i].1))
    ensures Fields(cfg, ctx, st0, fields, inners, n) == Going(st0)
  {
    if n > 0 {
      AllSkipped(cfg, ctx, st0, fields, inners, n - 1);
    }
  }

  /** A falsy value of a non-record type known to the schema is stored as None. */
  lemma FalsyIsNull(cfg: Config, ctx: Ctx, st: State, key: string, value: Json, inner: Inner)
    requires CellKey(key).Some?
    requires var keys := FieldKeys(ctx, key, CellKey(key).value);
      keys.0 in cfg.schema && |Split(cfg.schema[keys.0], '-')| >= 2
      && Split(cfg.schema[keys.0], '-')[0] != "record"
    requires !Truthy(value) && value != JArray([]) && value != JObject([])
    ensures var keys := FieldKeys(ctx, key, CellKey(key).value);
      Field(cfg, ctx, st, key, value, inner) == Going(State(st.row[keys.1 := CNull], st.frags))
  {
  }

  /** A repeated field that is not a list (a truthy one, for scalar types) rejects the line. */
  lemma RepeatedNotListRejects(cfg: Config, ctx: Ctx, st: State, key: string, value: Json, inner: Inner)
    requires CellKey(key).Some?
    requires var fullKey := FieldKeys(ctx, key, CellKey(key).value).0;
      fullKey in cfg.schema && |Split(cfg.schema[fullKey], '-')| >= 2
      && Split(cfg.schema[fullKey], '-')[1] == "repeated"
      && (Split(cfg.schema[fullKey], '-')[0] != "record" ==> Truthy(value))
    requires !value.JArray? && value != JObject([])
    ensures Field(cfg, ctx, st, key, value, inner) == Rejected
  {
  }

  /** A record field that is not a dict rejects the line. */
  lemma RecordNotDictRejects(cfg: Config, ctx: Ctx, st: State, key: string, value: Json, inner: Inner)
    requires CellKey(key).Some?
    requires var fullKey := FieldKeys(ctx, key, CellKey(key).value).0;
      fullKey in cfg.schema && |Split(cfg.schema[fullKey], '-')| >= 2
      && Split(cfg.schema[fullKey], '-')[0] == "record" && Split(cfg.schema[fullKey], '-')[1] != "repeated"
    requires !value.JObject? && value != JArray([])
    ensures Field(cfg, ctx, st, key, value, inner) == Rejected
  {
  }

  /**
   * A value of a scalar type that does not convert, unforced, rejects the line; when it is
   * a string past ASCII, str(value) in the error message raises instead.
   */
  lemma FailedConversion(cfg: Config, hash: string, st: State, fullKey: string, dictKey: string,
                         parts: seq<string>, value: Json)
    requires |parts| >= 2 && parts[1] != "repeated" && !(|parts| >= 3 && parts[2] == "forced")
    requires Truthy(value) && Convert(cfg, parts[0], value) == ValueError
    ensures value.JString?
    ensures Scalar(cfg, hash, st, fullKey, dictKey, parts, value) == if StrRaises(value) then Crashed else Rejected
  {
  }

  /** An unforced integer field holding "\u00e9": int() fails and so does the message. */
  lemma NonAsciiIntegerCrashes(cfg: Config, hash: string, st: State, fullKey: string, dictKey: string)
    ensures Scalar(cfg, hash, st, fullKey, dictKey, ["integer", "nullable"], JString("\U{e9}")) == Crashed
  {
    LatinLetterRaises();
    assert !IsAscii("\U{e9}");
  }

  /** A field that rejects after the earlier fields went through rejects the whole dict. */
  lemma RejectedField(cfg: Config, ctx: Ctx, st0: State, fields: seq<(string, Json)>, inners: seq<Inner>, i: nat)
    requires |inners| == |fields| && i < |fields|
    requires Fields(cfg, ctx, st0, fields, inners, i).Going?
    requires Field(cfg, ctx, Fields(cfg, ctx, st0, fields, inners, i).st, fields[i].0, fields[i].1, inners[i]) == Rejected
    ensures Fields(cfg, ctx, st0, fields, inners, |fields|) == Rejected
  {
    FieldsStay(cfg, ctx, st0, fields, inners, i + 1, |fields|);
  }

  /**
   * A nested record that rejects does not reject the line: the caller
   * iterates over the None it got back, and the raise ends the mapper.
   */
  lemma NestedRejectionCrashes(cfg: Config, ctx: Ctx, st: State, key: string, value: Json)
    requires CellKey(key).Some?
    requires var fullKey := FieldKeys(ctx, key, CellKey(key).value).0;
      fullKey in cfg.schema && |Split(cfg.schema[fullKey], '-')| >= 2
      && Split(cfg.schema[fullKey], '-')[0] == "record" && Split(cfg.schema[fullKey], '-')[1] != "repeated"
      && value.JObject? && value.fields != []
      && Clean(cfg, value, Some(fullKey), None, false, "root") == Rejected
    ensures Field(cfg, ctx, st, key, value, InnerOf(cfg, ctx, key, value)) == Crashed
  {
  }

  /** schema[key] = schema_field['data_type']: what the mapper's main loads. */
  function LoadedSchema(fields: SchemaReducer.Schema): map<string, string>
  {
    map k | k in fields :: fields[k].dataType
  }

  /**
   * With the schema main loads, a data type without "-" makes
   * data_type_mode[1] raise on the first field it knows.
   */
  lemma LoadedSchemaRaises(fields: SchemaReducer.Schema, cfg: Config, ctx: Ctx, st: State, key: string,
                           value: Json, inner: Inner)
    requires cfg.schema == LoadedSchema(fields)
    requires CellKey(key).Some?
    requires var fullKey := FieldKeys(ctx, key, CellKey(key).value).0;
      fullKey in fields && '-' !in fields[fullKey].dataType && !Skipped(cfg, fullKey, value)
    ensures Field(cfg, ctx, st, key, value, inner) == Crashed
  {
    var fullKey := FieldKeys(ctx, key, CellKey(key).value).0;
    assert Split(fields[fullKey].dataType, '-') == [fields[fullKey].dataType];
  }

  /** Every data type process_new_field stores is free of "-", so the loaded schema always raises. */
  lemma StoredTypesHaveNoDash(schema: SchemaReducer.Schema, key: string, dm: string)
    requires forall k :: k in schema ==> '-' !in schema[k].dataType
    requires SchemaReducer.NewField(schema, Some(key), Some(dm)).Ok?
    ensures var s := SchemaReducer.NewField(schema, Some(key), Some(dm)).value;
      forall k :: k in s ==> '-' !in s[k].dataType
  {
  }

  /** The schema clean_data's indexing needs: each key's stored record read back as "data_type-mode". */
  function ModeSchema(fields: SchemaReducer.Schema): map<string, string>
  {
    map k | k in fields :: SchemaReducer.StoredMode(fields[k])
  }

  /**
   * With the "data_type-mode" schema, data_type_mode splits into exactly the
   * stored type and mode, so index 1 exists and holds the mode.
   */
  lemma ModeSchemaSplits(fields: SchemaReducer.Schema, key: string)
    requires key in fields && '-' !in fields[key].dataType && '-' !in fields[key].mode
    ensures key in ModeSchema(fields)
    ensures Split(ModeSchema(fields)[key], '-') == [fields[key].dataType, fields[key].mode]
  {
    SplitJoin([fields[key].dataType, fields[key].mode], '-');
    assert Join([fields[key].dataType, fields[key].mode], '-') == SchemaReducer.StoredMode(fields[key]);
  }

  // ---------------------------------------------------------------------------
  // The local files: create_file_descriptor and process_line
  // ---------------------------------------------------------------------------

  /** file_descriptors[path]: the file's name and the rows written to it, one JSON line each. */
  datatype Descriptor = Descriptor(fileName: string, lines: seq<Row>)

  /** The mapper's mutable globals: file_descriptors, the mkdir commands run, shard_values. */
  datatype Writer = Writer(descriptors: map<string, Descriptor>, openOrder: seq<string>,
                           commands: seq<string>, shards: seq<string>)

  function FileName(tmpPath: string, path: string, local: string): string
  {
    tmpPath + "/" + path + "/" + local
  }

  function Mkdir(tmpPath: string, path: string): string
  {
    "mkdir " + tmpPath + "/" + path
  }

  /**
   * Whether open() finds the fragment's directory. main makes only
   * <tmp>, and `mkdir <tmp>/<path>` has no -p, so it makes the directory
   * only when its parent exists: <tmp> itself for a name without "/",
   * otherwise the directory of the fragment before the last "/", which
   * exists exactly when that fragment's file was opened.
   */
  predicate CanOpen(w: Writer, path: string)
  {
    '/' !in path || RSplitOnce(path, '/')[0] in w.descriptors
  }

  /** create_file_descriptor(path) once the directory is made: open an empty file and remember it. */
  function Open(w: Writer, tmpPath: string, local: string, path: string): Writer
  {
    w.(descriptors := w.descriptors[path := Descriptor(FileName(tmpPath, path, local), [])],
       openOrder := w.openOrder + [path],
       commands := w.commands + [Mkdir(tmpPath, path)])
  }

  /**
   * create_file_descriptor(path): the mkdir always runs (its failure is
   * ignored); open() then raises IOError when the directory is missing.
   */
  function TryOpen(w: Writer, tmpPath: string, local: string, path: string): (Writer, bool)
  {
    if CanOpen(w, path) then (Open(w, tmpPath, local, path), true)
    else (w.(commands := w.commands + [Mkdir(tmpPath, path)]), false)
  }

  /** The lines a fragment writes: one per element of a list, one for the row. */
  function Output(st: State, f: Frag): seq<Row>
  {
    if f.Own? then [st.row] else f.rows
  }

  /** The loop body of process_line: open the fragment's file on first use, then write its lines; false when open() raised. */
  function WriteOne(w: Writer, tmpPath: string, local: string, name: string, out: seq<Row>): (Writer, bool)
  {
    var got := if name in w.descriptors then (w, true) else TryOpen(w, tmpPath, local, name);
    if !got.1 then got
    else
      var d := got.0.descriptors[name];
      (got.0.(descriptors := got.0.descriptors[name := d.(lines := d.lines + out)]), true)
  }

  /** The loop over data_fragments in process_line, after its first n fragments; it stops when open() raises. */
  function WriteFrags(w: Writer, tmpPath: string, local: string, st: State, n: nat): (Writer, bool)
    requires n <= |st.frags|
  {
    if n == 0 then (w, true)
    else
      var r := WriteFrags(w, tmpPath, local, st, n - 1);
      if !r.1 then r else WriteOne(r.0, tmpPath, local, st.frags[n - 1].0, Output(st, st.frags[n - 1].1))
  }

  /** process_line(line): the new globals, and whether the mapper is still running. */
  function AfterLine(cfg: Config, tmpPath: string, local: string, w: Writer, line: Option<Json>): (Writer, bool)
  {
    var r := CleanLine(cfg, line);
    var w1 := w.(shards := w.shards + (if r.shard.Some? then [r.shard.value] else []));
    match r.outcome
    case Going(st) => WriteFrags(w1, tmpPath, local, st, |st.frags|)
    case Rejected => (w1, true)
    case Crashed => (w1, false)
  }

  /** The loop over the input lines in main, which ends when a line raises. */
  function RunLines(cfg: Config, tmpPath: string, local: string, w: Writer, lines: seq<Option<Json>>): (Writer, bool)
  {
    if lines == [] then (w, true)
    else
      var r := RunLines(cfg, tmpPath, local, w, lines[..|lines| - 1]);
      if !r.1 then r else AfterLine(cfg, tmpPath, local, r.0, lines[|lines| - 1])
  }

  /** Once open() has raised, the remaining fragments of the line are not written. */
  lemma {:induction false} WriteFragsStay(w: Writer, tmpPath: string, local: string, st: State, n: nat, m: nat)
    requires n <= m <= |st.frags|
    requires !WriteFrags(w, tmpPath, local, st, n).1
    ensures WriteFrags(w, tmpPath, local, st, m) == WriteFrags(w, tmpPath, local, st, n)
    decreases m
  {
    if m > n {
      WriteFragsStay(w, tmpPath, local, st, n, m - 1);
    }
  }

  /**
   * The writer cache opens each fragment's file once: the openOrder fragments
   * are distinct, they are exactly the cached ones, each was made by one
   * mkdir, and each file lives in its fragment's directory. After those
   * mkdirs there is at most one more, the one whose open() raised.
   */
  ghost predicate OpenedOnce(tmpPath: string, local: string, w: Writer)
  {
    (forall i, j :: 0 <= i < j < |w.openOrder| ==> w.openOrder[i] != w.openOrder[j])
    && (forall p :: p in w.descriptors <==> p in w.openOrder)
    && |w.openOrder| <= |w.commands| <= |w.openOrder| + 1
    && (forall i :: 0 <= i < |w.openOrder| ==> w.commands[i] == Mkdir(tmpPath, w.openOrder[i]))
    && (forall p :: p in w.descriptors ==> w.descriptors[p].fileName == FileName(tmpPath, p, local))
  }

  /** No open() has raised yet: every mkdir run so far made a directory whose file is open. */
  predicate Live(w: Writer)
  {
    |w.commands| == |w.openOrder|
  }

  /** Writing one fragment opens its file only when it is not cached yet; the writer stays live unless open() raised. */
  lemma WriteOneOpensOnce(w: Writer, tmpPath: string, local: string, name: string, out: seq<Row>)
    requires OpenedOnce(tmpPath, local, w) && Live(w)
    ensures var r := WriteOne(w, tmpPath, local, name, out);
      OpenedOnce(tmpPath, local, r.0) && r.0.shards == w.shards && (r.1 <==> Live(r.0))
  {
    if name !in w.descriptors {
      assert name !in w.openOrder;
    }
  }

  lemma {:induction false} WriteFragsOpensOnce(w: Writer, tmpPath: string, local: string, st: State, n: nat)
    requires n <= |st.frags| && OpenedOnce(tmpPath, local, w) && Live(w)
    ensures var r := WriteFrags(w, tmpPath, local, st, n);
      OpenedOnce(tmpPath, local, r.0) && r.0.shards == w.shards && (r.1 <==> Live(r.0))
  {
    if n > 0 {
      WriteFragsOpensOnce(w, tmpPath, local, st, n - 1);
      var r := WriteFrags(w, tmpPath, local, st, n - 1);
      if r.1 {
        WriteOneOpensOnce(r.0, tmpPath, local, st.frags[n - 1].0, Output(st, st.frags[n - 1].1));
      }
    }
  }

  lemma AfterLineOpensOnce(cfg: Config, tmpPath: string, local: string, w: Writer, line: Option<Json>)
    requires OpenedOnce(tmpPath, local, w) && Live(w)
    ensures var r := AfterLine(cfg, tmpPath, local, w, line);
      OpenedOnce(tmpPath, local, r.0) && (r.1 ==> Live(r.0))
  {
    var r := CleanLine(cfg, line);
    if r.outcome.Going? {
      var w1 := w.(shards := w.shards + (if r.shard.Some? then [r.shard.value] else []));
      WriteFragsOpensOnce(w1, tmpPath, local, r.outcome.st, |r.outcome.st.frags|);
    }
  }

  lemma {:induction false} RunLinesOpensOnce(cfg: Config, tmpPath: string, local: string, w: Writer, lines: seq<Option<Json>>)
    requires OpenedOnce(tmpPath, local, w) && Live(w)
    ensures var r := RunLines(cfg, tmpPath, local, w, lines);
      OpenedOnce(tmpPath, local, r.0) && (r.1 ==> Live(r.0))
  {
    if lines != [] {
      RunLinesOpensOnce(cfg, tmpPath, local, w, lines[..|lines| - 1]);
      var r := RunLines(cfg, tmpPath, local, w, lines[..|lines| - 1]);
      if r.1 {
        AfterLineOpensOnce(cfg, tmpPath, local, r.0, lines[|lines| - 1]);
      }
    }
  }

  /** A rejected line, or one that raises, writes nothing and opens nothing. */
  lemma RejectedWritesNothing(cfg: Config, tmpPath: string, local: string, w: Writer, line: Option<Json>)
    requires !CleanLine(cfg, line).outcome.Going?
    ensures var w' := AfterLine(cfg, tmpPath, local, w, line).0;
      w'.descriptors == w.descriptors && w'.openOrder == w.openOrder && w'.commands == w.commands
  {
  }

  /** What a file held before the line: nothing when it was not open yet. */
  function Before(w: Writer, name: string): seq<Row>
  {
    if name in w.descriptors then w.descriptors[name].lines else []
  }

  /** Fragments the loop has not reached keep their files as they were. */
  lemma {:induction false} WriteFragsElsewhere(w: Writer, tmpPath: string, local: string, st: State, n: nat, name: string)
    requires n <= |st.frags|
    requires forall k :: 0 <= k < n ==> st.frags[k].0 != name
    ensures var w' := WriteFrags(w, tmpPath, local, st, n).0;
      (name in w'.descriptors <==> name in w.descriptors)
      && (name in w.descriptors ==> w'.descriptors[name] == w.descriptors[name])
  {
    if n > 0 {
      WriteFragsElsewhere(w, tmpPath, local, st, n - 1, name);
    }
  }

  /**
   * Each fragment of a cleaned line that the loop got through adds its
   * output to its own file: one line per element of a list, one line for
   * the row.
   */
  lemma {:induction false} WriteFragsLines(w: Writer, tmpPath: string, local: string, st: State, n: nat, k: nat)
    requires k < n <= |st.frags| && DistinctNames(st.frags)
    requires WriteFrags(w, tmpPath, local, st, n).1
    ensures var w' := WriteFrags(w, tmpPath, local, st, n).0;
      st.frags[k].0 in w'.descriptors
      && w'.descriptors[st.frags[k].0].lines == Before(w, st.frags[k].0) + Output(st, st.frags[k].1)
  {
    if n - 1 == k {
      WriteFragsElsewhere(w, tmpPath, local, st, k, st.frags[k].0);
    } else {
      WriteFragsLines(w, tmpPath, local, st, n - 1, k);
    }
  }

  /**
   * A cleaned line either raises at an open() or writes every one of its
   * fragments to that fragment's file, and nothing else.
   */
  lemma LineWritesEachFragment(cfg: Config, tmpPath: string, local: string, w: Writer, line: Option<Json>, k: nat)
    requires CleanLine(cfg, line).outcome.Going?
    requires k < |CleanLine(cfg, line).outcome.st.frags|
    ensures var st := CleanLine(cfg, line).outcome.st;
      var w' := AfterLine(cfg, tmpPath, local, w, line).0;
      AfterLine(cfg, tmpPath, local, w, line).1 ==>
        st.frags[k].0 in w'.descriptors
        && w'.descriptors[st.frags[k].0].lines == Before(w, st.frags[k].0) + Output(st, st.frags[k].1)
  {
    var r := CleanLine(cfg, line);
    CleanLineCarries(cfg, line);
    var w1 := w.(shards := w.shards + (if r.shard.Some? then [r.shard.value] else []));
    if WriteFrags(w1, tmpPath, local, r.outcome.st, |r.outcome.st.frags|).1 {
      WriteFragsLines(w1, tmpPath, local, r.outcome.st, |r.outcome.st.frags|, k);
    }
  }

  // ---------------------------------------------------------------------------
  // The sharded root fragment
  // ---------------------------------------------------------------------------

  /** The first fragment is named name. */
  predicate FirstIs(frags: Frags, name: string)
  {
    frags != [] && frags[0].0 == name
  }

  /** Storing under a name never moves the first entry's name. */
  lemma PutFirst(frags: Frags, name: string, f: Frag)
    requires frags != []
    ensures FirstIs(Put(frags, name, f), frags[0].0)
  {
  }

  lemma EnsureListFirst(frags: Frags, name: string)
    requires frags != []
    ensures FirstIs(EnsureList(frags, name), frags[0].0)
  {
    if Find(frags, name).None? {
      PutFirst(frags, name, Rows([]));
    }
  }

  lemma AppendToFirst(st: State, name: string, row: Row)
    requires st.frags != []
    ensures AppendTo(st, name, row).Going? ==> FirstIs(AppendTo(st, name, row).st.frags, st.frags[0].0)
  {
    match Find(st.frags, name)
    case Some(Rows(rs)) => PutFirst(st.frags, name, Rows(rs + [row]));
    case _ =>
  }

  lemma ChildStepFirst(cfg: Config, hash: string, fullKey: string, dataType: string, forced: bool, st: State, v: Json)
    requires st.frags != []
    ensures var o := ChildStep(cfg, hash, fullKey, dataType, forced, st, v);
      o.Going? ==> FirstIs(o.st.frags, st.frags[0].0)
  {
    match Convert(cfg, dataType, v)
    case Value(c) => AppendToFirst(st, fullKey, ChildRow(c, hash));
    case ValueError => AppendToFirst(st, fullKey, ChildRow(CNull, hash));
    case TypeError | EncodeError =>
  }

  lemma {:induction false} ChildRowsFirst(cfg: Config, hash: string, fullKey: string, dataType: string, forced: bool,
                                          st0: State, items: seq<Json>, m: nat)
    requires m <= |items| && st0.frags != []
    ensures var o := ChildRows(cfg, hash, fullKey, dataType, forced, st0, items, m);
      o.Going? ==> FirstIs(o.st.frags, st0.frags[0].0)
    decreases m
  {
    if m > 0 {
      ChildRowsFirst(cfg, hash, fullKey, dataType, forced, st0, items, m - 1);
      var o := ChildRows(cfg, hash, fullKey, dataType, forced, st0, items, m - 1);
      if o.Going? {
        ChildStepFirst(cfg, hash, fullKey, dataType, forced, o.st, items[m - 1]);
      }
    }
  }

  lemma AddStepFirst(st: State, fullKey: string, row: Row, e: (string, Frag))
    requires st.frags != []
    ensures var o := AddStep(st, fullKey, row, e);
      o.Going? ==> FirstIs(o.st.frags, st.frags[0].0)
  {
    if e.0 == "root" {
      AppendToFirst(st, fullKey, row);
    } else {
      PutFirst(st.frags, Sanitise(e.0), e.1);
    }
  }

  lemma {:induction false} AddElementFirst(st0: State, fullKey: string, t: State, n: nat)
    requires n <= |t.frags| && st0.frags != []
    ensures var o := AddElement(st0, fullKey, t, n);
      o.Going? ==> FirstIs(o.st.frags, st0.frags[0].0)
    decreases n
  {
    if n > 0 {
      AddElementFirst(st0, fullKey, t, n - 1);
      var o := AddElement(st0, fullKey, t, n - 1);
      if o.Going? {
        AddStepFirst(o.st, fullKey, t.row, t.frags[n - 1]);
      }
    }
  }

  lemma {:induction false} ElementsFirst(fullKey: string, st0: State, results: seq<Outcome>, m: nat)
    requires m <= |results| && st0.frags != []
    ensures var o := Elements(fullKey, st0, results, m);
      o.Going? ==> FirstIs(o.st.frags, st0.frags[0].0)
    decreases m
  {
    if m > 0 {
      ElementsFirst(fullKey, st0, results, m - 1);
      var o := Elements(fullKey, st0, results, m - 1);
      if o.Going? && results[m - 1].Going? {
        var t := results[m - 1].st;
        AddElementFirst(o.st, fullKey, t, |t.frags|);
      }
    }
  }

  lemma {:induction false} MergeFirst(st0: State, t: State, n: nat)
    requires n <= |t.frags| && st0.frags != []
    ensures FirstIs(Merge(st0, t, n).frags, st0.frags[0].0)
    decreases n
  {
    if n > 0 {
      MergeFirst(st0, t, n - 1);
      var st := Merge(st0, t, n - 1);
      PutFirst(st.frags, t.frags[n - 1].0, t.frags[n - 1].1);
    }
  }

  lemma ScalarFirst(cfg: Config, hash: string, st: State, fullKey: string, dictKey: string,
                    parts: seq<string>, value: Json)
    requires |parts| >= 2 && st.frags != []
    ensures var o := Scalar(cfg, hash, st, fullKey, dictKey, parts, value);
      o.Going? ==> FirstIs(o.st.frags, st.frags[0].0)
  {
    if Truthy(value) && parts[1] == "repeated" && value.JArray? && cfg.childTable {
      EnsureListFirst(st.frags, fullKey);
      ChildRowsFirst(cfg, hash, fullKey, parts[0], |parts| >= 3 && parts[2] == "forced",
                     State(st.row, EnsureList(st.frags, fullKey)), value.items, |value.items|);
    }
  }

  lemma FieldFirst(cfg: Config, ctx: Ctx, st: State, key: string, value: Json, inner: Inner)
    requires st.frags != []
    ensures var o := Field(cfg, ctx, st, key, value, inner);
      o.Going? ==> FirstIs(o.st.frags, st.frags[0].0)
  {
    var k := CellKey(key);
    if k.Some? {
      var (fullKey, dictKey) := FieldKeys(ctx, key, k.value);
      if !Skipped(cfg, fullKey, value) {
        var parts := Split(cfg.schema[fullKey], '-');
        if |parts| >= 2 {
          if parts[0] == "record" && parts[1] == "repeated" {
            EnsureListFirst(st.frags, fullKey);
            ElementsFirst(fullKey, State(st.row, EnsureList(st.frags, fullKey)), inner.elements, |inner.elements|);
          } else if parts[0] == "record" {
            if inner.record.Going? {
              MergeFirst(st, inner.record.st, |inner.record.st.frags|);
            }
          } else {
            ScalarFirst(cfg, ctx.hash, st, fullKey, dictKey, parts, value);
          }
        }
      }
    }
  }

  lemma {:induction false} FieldsFirst(cfg: Config, ctx: Ctx, st0: State, fields: seq<(string, Json)>, inners: seq<Inner>, n: nat)
    requires |inners| == |fields| && n <= |fields| && st0.frags != []
    ensures var o := Fields(cfg, ctx, st0, fields, inners, n);
      o.Going? ==> FirstIs(o.st.frags, st0.frags[0].0)
    decreases n
  {
    if n > 0 {
      FieldsFirst(cfg, ctx, st0, fields, inners, n - 1);
      var o := Fields(cfg, ctx, st0, fields, inners, n - 1);
      if o.Going? {
        FieldFirst(cfg, ctx, o.st, fields[n - 1].0, fields[n - 1].1, inners[n - 1]);
      }
    }
  }

  /** The root fragment is the first in new_data_fragments, under "root/<shard>" when a shard key is set. */
  lemma CleanLineRootFirst(cfg: Config, line: Option<Json>)
    requires CleanLine(cfg, line).outcome.Going?
    ensures var r := CleanLine(cfg, line);
      (cfg.shardKey.Some? <==> r.shard.Some?)
      && FirstIs(r.outcome.st.frags, if r.shard.Some? then "root/" + r.shard.value else "root")
  {
    var data := line.value;
    var rootName := if cfg.shardKey.None? then "root" else "root/" + ShardValue(data, cfg.shardKey.value).value.value;
    var ctx := Ctx(None, false, cfg.hash(data));
    assert CleanLine(cfg, line).outcome == Clean(cfg, data, None, None, false, rootName);
    if Truthy(data) && data.JObject? {
      FieldsFirst(cfg, ctx, Start(ctx.hash, None, rootName), data.fields, Inners(cfg, ctx, data), |data.fields|);
    }
  }

  /**
   * With a shard key, a line that cleans raises before writing anything
   * while <tmp>/root is missing: its root fragment "root/<shard>" comes
   * first, and `mkdir <tmp>/root/<shard>` cannot make its directory.
   */
  lemma ShardedLineRaises(cfg: Config, tmpPath: string, local: string, w: Writer, line: Option<Json>)
    requires cfg.shardKey.Some? && CleanLine(cfg, line).outcome.Going?
    requires w.descriptors == map[]
    ensures var r := AfterLine(cfg, tmpPath, local, w, line);
      !r.1 && r.0.descriptors == map[]
      && r.0.commands == w.commands + [Mkdir(tmpPath, "root/" + CleanLine(cfg, line).shard.value)]
  {
    var r := CleanLine(cfg, line);
    CleanLineRootFirst(cfg, line);
    var st := r.outcome.st;
    var w1 := w.(shards := w.shards + [r.shard.value]);
    assert '/' in "root/" + r.shard.value by {
      assert ("root/" + r.shard.value)[4] == '/';
    }
    assert !WriteFrags(w1, tmpPath, local, st, 1).1;
    WriteFragsStay(w1, tmpPath, local, st, 1, |st.frags|);
  }

  /**
   * With a shard key, the mapper never opens a file: every line is dropped
   * until the first line that cleans, and that line raises IOError.
   */
  lemma {:induction false} ShardedMapperOpensNothing(cfg: Config, tmpPath: string, local: string, w: Writer,
                                                     lines: seq<Option<Json>>)
    requires cfg.shardKey.Some? && w.descriptors == map[]
    ensures var r := RunLines(cfg, tmpPath, local, w, lines);
      r.0.descriptors == map[]
      && (r.1 <==> forall i :: 0 <= i < |lines| ==> CleanLine(cfg, lines[i]).outcome.Rejected?)
  {
    if lines != [] {
      var init := lines[..|lines| - 1];
      var last := lines[|lines| - 1];
      ShardedMapperOpensNothing(cfg, tmpPath, local, w, init);
      var r := RunLines(cfg, tmpPath, local, w, init);
      assert forall i :: 0 <= i < |init| ==> init[i] == lines[i];
      if r.1 && CleanLine(cfg, last).outcome.Going? {
        ShardedLineRaises(cfg, tmpPath, local, r.0, last);
      }
    }
  }

  // ---------------------------------------------------------------------------
  // The mapper process
  // ---------------------------------------------------------------------------


  /** One run of combine-data-mapper.py: its configuration and globals. */
  class DataMapper {
    const cfg: Config
    const tmpPath: string
    const localFileName: string  // '<host address>_<pid>'
    var descriptors: map<string, Descriptor>
    var openOrder: seq<string>
    var commands: seq<string>
    var shardValues: seq<string>

    function Snapshot(): Writer
      reads this
    {
      Writer(descriptors, openOrder, commands, shardValues)
    }

    constructor(cfg: Config, tmpPath: string, localFileName: string)
      ensures this.cfg == cfg && this.tmpPath == tmpPath && this.localFileName == localFileName
      ensures Snapshot() == Writer(map[], [], [], [])
    {
      this.cfg := cfg;
      this.tmpPath := tmpPath;
      this.localFileName := localFileName;
      descriptors := map[];
      openOrder := [];
      commands := [];
      shardValues := [];
    }

    /** clean_data below the shard test: the loop over the document's fields. */
    method CleanData(data: Json, parent: Option<string>, parentHash: Option<string>, isArray: bool,
                     rootName: string) returns (o: Outcome)
      ensures o == Clean(cfg, data, parent, parentHash, isArray, rootName)
      decreases data, 3
    {
      var ctx := Ctx(parent, isArray, cfg.hash(data));
      var st0 := Start(ctx.hash, parentHash, rootName);
      if !Truthy(data) {
        return Going(st0);
      }
      if !data.JObject? {
        return Crashed;
      }
      ghost var inners := Inners(cfg, ctx, data);
      var st := st0;
      var i := 0;
      while i < |data.fields|
        invariant 0 <= i <= |data.fields|
        invariant Fields(cfg, ctx, st0, data.fields, inners, i) == Going(st)
      {
        assert inners[i] == InnerOf(cfg, ctx, data.fields[i].0, data.fields[i].1);
        o := CleanField(ctx, st, data.fields[i].0, data.fields[i].1);
        if !o.Going? {
          FieldsStay(cfg, ctx, st0, data.fields, inners, i + 1, |data.fields|);
          return;
        }
        st := o.st;
        i := i + 1;
      }
      o := Going(st);
    }

    /** One pass of clean_data's loop body, for the field key: value. */
    method CleanField(ctx: Ctx, st: State, key: string, value: Json) returns (o: Outcome)
      ensures o == Field(cfg, ctx, st, key, value, InnerOf(cfg, ctx, key, value))
      decreases value, 4
    {
      var k := CellKey(key);
      if k.None? {
        return Crashed;
      }
      var (fullKey, dictKey) := FieldKeys(ctx, key, k.value);
      if Skipped(cfg, fullKey, value) {
        return Going(st);
      }
      var parts := Split(cfg.schema[fullKey], '-');
      if |parts| < 2 {
        return Crashed;
      }
      if parts[0] == "record" && parts[1] == "repeated" {
        if !value.JArray? {
          return Rejected;
        }
        if cfg.childTable {
          o := CleanElements(ctx.hash, fullKey, State(st.row, EnsureList(st.frags, fullKey)), value);
        } else {
          o := Going(State(st.row[dictKey := CJson(value)], st.frags));
        }
      } else if parts[0] == "record" {
        if !value.JObject? {
          return Rejected;
        }
        var t := CleanData(value, Some(fullKey), None, false, "root");
        if !t.Going? {
          return Crashed;
        }
        var merged := MergeRecord(st, t.st);
        o := Going(merged);
      } else {
        o := CleanScalar(ctx.hash, st, fullKey, dictKey, parts, value);
      }
    }

    /** The branches for a field whose type is not record. */
    method CleanScalar(hash: string, st: State, fullKey: string, dictKey: string,
                       parts: seq<string>, value: Json) returns (o: Outcome)
      requires |parts| >= 2
      ensures o == Scalar(cfg, hash, st, fullKey, dictKey, parts, value)
    {
      var forced := |parts| >= 3 && parts[2] == "forced";
      if !Truthy(value) {
        return Going(State(st.row[dictKey := CNull], st.frags));
      }
      if parts[1] == "repeated" {
        if !value.JArray? {
          return Rejected;
        }
        if !cfg.childTable {
          return Going(State(st.row[dictKey := CJson(value)], st.frags));
        }
        o := CleanChildRows(hash, fullKey, parts[0], forced, State(st.row, EnsureList(st.frags, fullKey)), value.items);
        return;
      }
      var c := Convert(cfg, parts[0], value);
      match c
      case Value(cell) => o := Going(State(st.row[dictKey := cell], st.frags));
      case ValueError =>
        if forced {
          o := Going(State(st.row[dictKey := CNull], st.frags));
        } else if StrRaises(value) {
          o := Crashed;
        } else {
          o := Rejected;
        }
      case TypeError | EncodeError => o := Crashed;
    }

    /** The loop over a repeated scalar's elements in child_table mode. */
    method CleanChildRows(hash: string, fullKey: string, dataType: string, forced: bool,
                          st0: State, items: seq<Json>) returns (o: Outcome)
      ensures o == ChildRows(cfg, hash, fullKey, dataType, forced, st0, items, |items|)
    {
      var st := st0;
      var j := 0;
      while j < |items|
        invariant 0 <= j <= |items|
        invariant ChildRows(cfg, hash, fullKey, dataType, forced, st0, items, j) == Going(st)
      {
        o := ChildStep(cfg, hash, fullKey, dataType, forced, st, items[j]);
        assert ChildRows(cfg, hash, fullKey, dataType, forced, st0, items, j + 1) == o;
        if !o.Going? {
          ChildRowsStay(cfg, hash, fullKey, dataType, forced, st0, items, j + 1, |items|);
          return;
        }
        st := o.st;
        j := j + 1;
      }
      o := Going(st);
    }

    /** The loop over a repeated record's elements in child_table mode. */
    method CleanElements(hash: string, fullKey: string, st0: State, list: Json) returns (o: Outcome)
      requires list.JArray?
      ensures o == Elements(fullKey, st0, ElementResults(cfg, hash, fullKey, list), |list.items|)
      decreases list, 2
    {
      ghost var results := ElementResults(cfg, hash, fullKey, list);
      var st := st0;
      var j := 0;
      while j < |list.items|
        invariant 0 <= j <= |list.items|
        invariant Elements(fullKey, st0, results, j) == Going(st)
      {
        var t := CleanData(list.items[j], Some(fullKey), Some(hash), true, "root");
        assert t == results[j];
        if !t.Going? {
          ElementsStay(fullKey, st0, results, j + 1, |list.items|);
          return Crashed;
        }
        o := AddElementRows(st, fullKey, t.st);
        if !o.Going? {
          ElementsStay(fullKey, st0, results, j + 1, |list.items|);
          return;
        }
        st := o.st;
        j := j + 1;
      }
      o := Going(st);
    }

    /** The loop over one element's fragments. */
    method AddElementRows(st0: State, fullKey: string, t: State) returns (o: Outcome)
      ensures o == AddElement(st0, fullKey, t, |t.frags|)
    {
      var st := st0;
      var n := 0;
      while n < |t.frags|
        invariant 0 <= n <= |t.frags|
        invariant AddElement(st0, fullKey, t, n) == Going(st)
      {
        o := AddStep(st, fullKey, t.row, t.frags[n]);
        if !o.Going? {
          AddElementStay(st0, fullKey, t, n + 1, |t.frags|);
          return;
        }
        st := o.st;
        n := n + 1;
      }
      o := Going(st);
    }

    /** The loop over a nested record's fragments. */
    method MergeRecord(st0: State, t: State) returns (st: State)
      ensures st == Merge(st0, t, |t.frags|)
    {
      st := st0;
      var n := 0;
      while n < |t.frags|
        invariant 0 <= n <= |t.frags|
        invariant st == Merge(st0, t, n)
      {
        var (name, content) := t.frags[n];
        if name == "root" {
          st := State(st.row + (t.row - {HashKey}), st.frags);
        }
        if content.Rows? {
          st := State(st.row, Put(st.frags, name, content));
        }
        n := n + 1;
      }
    }

    /** clean_data(line, line_num) at the root, with its shard test and the append to shard_values. */
    method CleanRoot(line: Option<Json>) returns (o: Outcome)
      modifies this
      ensures o == CleanLine(cfg, line).outcome
      ensures var s := CleanLine(cfg, line).shard;
        Snapshot() == old(Snapshot()).(shards := old(shardValues) + (if s.Some? then [s.value] else []))
    {
      if line.None? {
        return Rejected;
      }
      var rootName := "root";
      if cfg.shardKey.Some? {
        var shard := ShardValue(line.value, cfg.shardKey.value);
        if shard.Err? {
          return Crashed;
        }
        if shard.value.None? {
          return Rejected;
        }
        rootName := "root/" + shard.value.value;
        shardValues := shardValues + [shard.value.value];
      }
      o := CleanData(line.value, None, None, false, rootName);
    }

    /** create_file_descriptor(path): false when open() raised because the directory is missing. */
    method CreateFileDescriptor(path: string) returns (ok: bool)
      modifies this
      ensures (Snapshot(), ok) == TryOpen(old(Snapshot()), tmpPath, localFileName, path)
    {
      commands := commands + [Mkdir(tmpPath, path)];
      if '/' in path && RSplitOnce(path, '/')[0] !in descriptors {
        return false;
      }
      descriptors := descriptors[path := Descriptor(FileName(tmpPath, path, localFileName), [])];
      openOrder := openOrder + [path];
      ok := true;
    }

    /** process_line(line): false when the line raised, which ends the mapper. */
    method ProcessLine(line: Option<Json>) returns (alive: bool)
      modifies this
      ensures (Snapshot(), alive) == AfterLine(cfg, tmpPath, localFileName, old(Snapshot()), line)
    {
      var o := CleanRoot(line);
      if o.Rejected? {
        return true;
      }
      if o.Crashed? {
        return false;
      }
      alive := WriteFragments(o.st);
    }

    /** process_line's loop over data_fragments; false when an open() raised. */
    method WriteFragments(st: State) returns (ok: bool)
      modifies this
      ensures (Snapshot(), ok) == WriteFrags(old(Snapshot()), tmpPath, localFileName, st, |st.frags|)
    {
      ghost var w1 := Snapshot();
      var i := 0;
      while i < |st.frags|
        invariant 0 <= i <= |st.frags|
        invariant (Snapshot(), true) == WriteFrags(w1, tmpPath, localFileName, st, i)
      {
        ok := WriteFragment(st.frags[i].0, Output(st, st.frags[i].1));
        if !ok {
          WriteFragsStay(w1, tmpPath, localFileName, st, i + 1, |st.frags|);
          return;
        }
        i := i + 1;
      }
      ok := true;
    }

    /** One pass of process_line's loop: file_descriptors[path].write(...) for each output line; false when open() raised. */
    method WriteFragment(name: string, out: seq<Row>) returns (ok: bool)
      modifies this
      ensures (Snapshot(), ok) == WriteOne(old(Snapshot()), tmpPath, localFileName, name, out)
    {
      if name !in descriptors {
        ok := CreateFileDescriptor(name);
        if !ok {
          return;
        }
      }
      var d := descriptors[name];
      descriptors := descriptors[name := d.(lines := d.lines + out)];
      ok := true;
    }

    /** main's loop over the input lines; it stops at the first line that raises. */
    method ProcessAll(lines: seq<Option<Json>>) returns (alive: bool)
      modifies this
      ensures (Snapshot(), alive) == RunLines(cfg, tmpPath, localFileName, old(Snapshot()), lines)
    {
      ghost var w0 := Snapshot();
      var lineNum := 0;
      while lineNum < |lines|
        invariant 0 <= lineNum <= |lines|
        invariant RunLines(cfg, tmpPath, localFileName, w0, lines[..lineNum]) == (Snapshot(), true)
      {
        assert lines[..lineNum + 1][..lineNum] == lines[..lineNum];
        alive := ProcessLine(lines[lineNum]);
        if !alive {
          RunLinesStay(cfg, tmpPath, localFileName, w0, lines, lineNum + 1);
          return;
        }
        lineNum := lineNum + 1;
      }
      assert lines[..lineNum] == lines;
      alive := true;
    }
  }

  lemma {:induction false} RunLinesStay(cfg: Config, tmpPath: string, local: string, w: Writer,
                                        lines: seq<Option<Json>>, n: nat)
    requires n <= |lines|
    requires !RunLines(cfg, tmpPath, local, w, lines[..n]).1
    ensures RunLines(cfg, tmpPath, local, w, lines) == RunLines(cfg, tmpPath, local, w, lines[..n])
    decreases |lines|
  {
    if n < |lines| {
      var init := lines[..|lines| - 1];
      assert init[..n] == lines[..n];
      RunLinesStay(cfg, tmpPath, local, w, init, n);
    } else {
      assert lines[..n] == lines;
    }
  }
}
