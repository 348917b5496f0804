/**
 * onefold.py: the loader that extracts a Mongo collection into part files,
 * rejects documents that miss a required field, and creates or updates the
 * Hive tables before loading the transformed fragments into them.
 *
 * Mongo is an input: the documents a query returns, in sort order, and the
 * field records of the schema collection. The warehouse is the Hive class
 * of dw_util.py, whose statement log records what the loader asks of it.
 */
module Loader {
  import opened Text
  import opened Json
  import SchemaReducer
  import Warehouse
  import CloudStorage

  const NumRecordsPerPart: nat := 100000
  const TmpPath := "/tmp/onefold_mongo"
  const CloudStoragePath := "onefold_mongo"
  const Hadoop := "hadoop"
  const GoogleCloud := "gcloud"
  const Overwrite := "overwrite"

  /** ONEFOLD_HIVESERDES_JAR, built from the working directory at start-up. */
  function HiveSerdesJar(cwd: string): string
  {
    cwd + "/java/HiveSerdes/target/hive-serdes-1.0-SNAPSHOT.jar"
  }

  /** Python 2 "%s" of a value that may be None. */
  function PyStr(s: Option<string>): string
  {
    if s.Some? then s.value else "None"
  }

  // ---------------------------------------------------------------------------
  // jsonpath_get
  // ---------------------------------------------------------------------------

  /**
   * The loop of jsonpath_get over the keys: `elem = elem.get(x)` on a dict;
   * on anything else `.get` raises, the exception is swallowed and the
   * element reached so far is returned.
   */
  function Walk(elem: Json, keys: seq<string>): Json
    decreases |keys|
  {
    if keys == [] then elem
    else
      match elem
      case JObject(fields) =>
        var next := if HasKey(fields, keys[0]) then Get(fields, keys[0]).value else JNull;
        Walk(next, keys[1..])
      case _ => elem
  }

  /** jsonpath_get: follow the "."-separated path from the document. */
  function JsonpathGet(doc: Json, path: string): Json
  {
    Walk(doc, Split(path, '.'))
  }

  /** jsonpath_get as the loop it is: step into a dict per key, and stop at the first element that is not one. */
  method FollowPath(doc: Json, path: string) returns (elem: Json)
    ensures elem == JsonpathGet(doc, path)
  {
    var keys := Split(path, '.');
    elem := doc;
    var i := 0;
    while i < |keys|
      invariant 0 <= i <= |keys|
      invariant Walk(doc, keys) == Walk(elem, keys[i..])
    {
      if !elem.JObject? {
        return;
      }
      assert keys[i..][1..] == keys[i + 1..];
      elem := if HasKey(elem.fields, keys[i]) then Get(elem.fields, keys[i]).value else JNull;
      i := i + 1;
    }
  }

  /** The document that holds v under the nested keys. */
  function Nest(keys: seq<string>, v: Json): Json
    decreases |keys|
  {
    if keys == [] then v else JObject([(keys[0], Nest(keys[1..], v))])
  }

  lemma {:induction false} WalkNest(keys: seq<string>, v: Json)
    ensures Walk(Nest(keys, v), keys) == v
    decreases |keys|
  {
    if keys != [] {
      var fields := [(keys[0], Nest(keys[1..], v))];
      assert HasKey(fields, keys[0]) by {
        assert fields[0].0 == keys[0];
      }
      WalkNest(keys[1..], v);
    }
  }

  /** A value stored under nested dot-free keys is found again by the dotted path of those keys. */
  lemma JsonpathGetFindsNested(keys: seq<string>, v: Json)
    requires |keys| >= 1
    requires forall i :: 0 <= i < |keys| ==> '.' !in keys[i]
    ensures JsonpathGet(Nest(keys, v), Join(keys, '.')) == v
  {
    SplitJoin(keys, '.');
    WalkNest(keys, v);
  }

  /** Once a key is missing the walk yields None, whatever keys follow. */
  lemma {:induction false} WalkFromNone(keys: seq<string>)
    ensures Walk(JNull, keys) == JNull
  {
  }

  /** A dotted path splits into its first dot-free key and the rest. */
  lemma SplitFirstKey(k: string, rest: string)
    requires '.' !in k
    ensures Split(k + "." + rest, '.') == [k] + Split(rest, '.')
  {
    var s := k + "." + rest;
    assert s[|k|] == '.';
    var i := IndexOf(s, '.');
    assert s[..|k|] == k;
    assert i == |k|;
    assert s[..i] == k && s[i + 1..] == rest;
  }

  /**
   * jsonpath_get gives None when the document lacks the first key, and
   * stops at a first value that is not a dict, returning that value.
   */
  lemma JsonpathGetStops(fields: seq<(string, Json)>, k: string, rest: string)
    requires '.' !in k
    ensures !HasKey(fields, k) ==> JsonpathGet(JObject(fields), k + "." + rest) == JNull
    ensures HasKey(fields, k) && !Get(fields, k).value.JObject? ==>
              JsonpathGet(JObject(fields), k + "." + rest) == Get(fields, k).value
  {
    SplitFirstKey(k, rest);
    var keys := Split(k + "." + rest, '.');
    assert keys[0] == k && keys[1..] == Split(rest, '.');
    if !HasKey(fields, k) {
      WalkFromNone(Split(rest, '.'));
    } else {
      var v := Get(fields, k).value;
      assert Walk(JObject(fields), keys) == Walk(v, keys[1..]);
      assert keys[1..] != [];
    }
  }

  // ---------------------------------------------------------------------------
  // Policies and the required fields
  // ---------------------------------------------------------------------------

  /**
   * One entry of the policy file, by the entries the loader looks at:
   * "key", "required", "data_type" and "mode".
   */
  datatype Policy = Policy(key: Option<string>, required: Option<Json>, dataType: Option<string>, mode: Option<string>)

  /** required_fields: policies by key, in the order the keys were first stored. */
  type RequiredFields = seq<(string, Policy)>

  /** required_fields.get(k) */
  function Lookup(rf: RequiredFields, k: string): (r: Option<Policy>)
    ensures r.Some? <==> exists i :: 0 <= i < |rf| && rf[i].0 == k
    decreases |rf|
  {
    if rf == [] then None
    else if rf[|rf| - 1].0 == k then Some(rf[|rf| - 1].1)
    else Lookup(rf[..|rf| - 1], k)
  }

  /** No key is stored twice. */
  ghost predicate UniqueKeys(rf: RequiredFields)
  {
    forall i, j :: 0 <= i < j < |rf| ==> rf[i].0 != rf[j].0
  }

  /** `required_fields[k] = p`: replace the policy of a stored key in place, or store a new key last. */
  function Assign(rf: RequiredFields, k: string, p: Policy): RequiredFields
  {
    if exists i :: 0 <= i < |rf| && rf[i].0 == k then
      seq(|rf|, i requires 0 <= i < |rf| => if rf[i].0 == k then (k, p) else rf[i])
    else rf + [(k, p)]
  }

  lemma {:induction false} LookupFindsEntry(rf: RequiredFields, i: nat)
    requires UniqueKeys(rf) && i < |rf|
    ensures Lookup(rf, rf[i].0) == Some(rf[i].1)
    decreases |rf|
  {
    if i < |rf| - 1 {
      LookupFindsEntry(rf[..|rf| - 1], i);
    }
  }

  /**
   * After `required_fields[k] = p`, k maps to p, every other key keeps its
   * policy, the keys stay unique, and a new key is stored last.
   */
  lemma AssignStores(rf: RequiredFields, k: string, p: Policy)
    requires UniqueKeys(rf)
    ensures UniqueKeys(Assign(rf, k, p))
    ensures Lookup(Assign(rf, k, p), k) == Some(p)
    ensures forall j :: j != k ==> Lookup(Assign(rf, k, p), j) == Lookup(rf, j)
    ensures Lookup(rf, k).None? ==> Assign(rf, k, p) == rf + [(k, p)]
    ensures Lookup(rf, k).Some? ==>
              |Assign(rf, k, p)| == |rf| && (forall i :: 0 <= i < |rf| ==> Assign(rf, k, p)[i].0 == rf[i].0)
  {
    var r := Assign(rf, k, p);
    assert UniqueKeys(r);
    if i :| 0 <= i < |rf| && rf[i].0 == k {
      assert r[i].0 == k;
      LookupFindsEntry(r, i);
    } else {
      assert r[|rf|].0 == k;
      LookupFindsEntry(r, |rf|);
    }
    forall j | j != k
      ensures Lookup(r, j) == Lookup(rf, j)
    {
      if n :| 0 <= n < |rf| && rf[n].0 == j {
        LookupFindsEntry(rf, n);
        LookupFindsEntry(r, n);
      } else {
        assert forall n :: 0 <= n < |r| ==> r[n].0 != j;
      }
    }
  }

  /** What initialize builds from the policies: the schema collection's field records and required_fields. */
  datatype PolicyState = PolicyState(schema: SchemaReducer.Schema, required: RequiredFields)

  /** The mode a data_type policy forces: its "mode", or "nullable". */
  function ForcedMode(p: Policy): string
  {
    if p.mode.Some? then p.mode.value else "nullable"
  }

  /**
   * One policy: with a "key", a "required" entry stores the policy in
   * required_fields, and a "data_type" entry upserts a forced field record
   * under the key with "." replaced by "_".
   */
  function ApplyPolicy(st: PolicyState, p: Policy): PolicyState
  {
    if p.key.None? then st
    else
      var k := p.key.value;
      var required := if p.required.Some? then Assign(st.required, k, p) else st.required;
      var schema :=
        if p.dataType.Some? then st.schema[ReplaceChar(k, '.', '_') := SchemaReducer.SchemaField(p.dataType.value, ForcedMode(p), true)]
        else st.schema;
      PolicyState(schema, required)
  }

  /** The policies in file order. */
  function ApplyPolicies(st: PolicyState, ps: seq<Policy>): PolicyState
    decreases |ps|
  {
    if ps == [] then st else ApplyPolicy(ApplyPolicies(st, ps[..|ps| - 1]), ps[|ps| - 1])
  }

  /** The last policy with key k and a "required" entry. */
  function LastRequired(ps: seq<Policy>, k: string): (r: Option<Policy>)
    ensures r.Some? ==> r.value.key == Some(k) && r.value.required.Some?
    decreases |ps|
  {
    if ps == [] then None
    else
      var p := ps[|ps| - 1];
      if p.key == Some(k) && p.required.Some? then Some(p) else LastRequired(ps[..|ps| - 1], k)
  }

  /** The last policy with a "data_type" entry whose key, with "." replaced by "_", is x. */
  function LastOverride(ps: seq<Policy>, x: string): (r: Option<Policy>)
    ensures r.Some? ==> r.value.key.Some? && r.value.dataType.Some? && ReplaceChar(r.value.key.value, '.', '_') == x
    decreases |ps|
  {
    if ps == [] then None
    else
      var p := ps[|ps| - 1];
      if p.key.Some? && p.dataType.Some? && ReplaceChar(p.key.value, '.', '_') == x then Some(p)
      else LastOverride(ps[..|ps| - 1], x)
  }

  /**
   * After the policies, required_fields maps each key to the last
   * "required" policy for it (and keeps what it held for other keys); the
   * keys stay unique.
   */
  lemma {:induction false} PoliciesRequired(st: PolicyState, ps: seq<Policy>, k: string)
    requires UniqueKeys(st.required)
    ensures UniqueKeys(ApplyPolicies(st, ps).required)
    ensures Lookup(ApplyPolicies(st, ps).required, k) ==
              if LastRequired(ps, k).Some? then LastRequired(ps, k) else Lookup(st.required, k)
    decreases |ps|
  {
    if ps != [] {
      var init := ps[..|ps| - 1];
      var p := ps[|ps| - 1];
      PoliciesRequired(st, init, k);
      var before := ApplyPolicies(st, init);
      if p.key.Some? && p.required.Some? {
        AssignStores(before.required, p.key.value, p);
      }
    }
  }

  /**
   * After the policies, the field record under x is forced to the data type
   * and mode of the last "data_type" policy whose sanitised key is x; records
   * no policy names are as they were.
   */
  lemma {:induction false} PoliciesForce(st: PolicyState, ps: seq<Policy>, x: string)
    ensures var o := LastOverride(ps, x);
            var schema := ApplyPolicies(st, ps).schema;
            if o.Some? then x in schema && schema[x] == SchemaReducer.SchemaField(o.value.dataType.value, ForcedMode(o.value), true)
            else (x in schema <==> x in st.schema) && (x in schema ==> schema[x] == st.schema[x])
    decreases |ps|
  {
    if ps != [] {
      PoliciesForce(st, ps[..|ps| - 1], x);
    }
  }

  // ---------------------------------------------------------------------------
  // Command-line options (main)
  // ---------------------------------------------------------------------------

  /**
   * The arguments after argparse: the required ones, those with a default
   * (already filled in), and the optional ones (None when not given).
   */
  datatype Args = Args(
    mongo: string, sourceDb: string, sourceCollection: string,
    sourceSortByField: string,       // default "_id"
    query: Option<string>,
    tmpPath: string,                 // default TMP_PATH
    schemaDb: Option<string>, schemaCollection: Option<string>,
    writeDisposition: string,        // default "overwrite"
    destDbName: Option<string>, destTableName: Option<string>,
    useMr: bool,
    infraType: string,               // default "hadoop"
    hiveserverHost: Option<string>, hiveserverPort: Option<string>,
    gcloudProjectId: Option<string>, gcloudStorageBucketId: Option<string>)

  /** The Loader attributes main sets. */
  datatype Settings = Settings(
    infraType: string, mongoUri: string, dbName: string, collectionName: string,
    sortByField: string, extractQuery: Option<string>, tmpPath: string,
    schemaDbName: string, schemaCollectionName: string,
    hiveserverHost: Option<string>, hiveserverPort: Option<string>,
    gcloudProjectId: Option<string>, gcloudStorageBucketId: Option<string>,
    writeDisposition: string, dwTableName: string, dwDatabaseName: Option<string>, useMr: bool)

  const HostMissing := "ValueError: hiveserver_host must be specified for 'hadoop' infrastructure type."
  const PortMissing := "ValueError: hiveserver_port must be specified for 'hadoop' infrastructure type."
  const ProjectMissing := "ValueError: gcloud_project_id must be specified for 'gcloud' infrastructure type."
  const BucketMissing := "ValueError: gcloud_storage_bucket_id must be specified for 'gcloud' infrastructure type."

  /** The first connection setting main finds missing for the infrastructure type; any type but "hadoop" is checked as gcloud. */
  function MissingConnection(a: Args): Option<string>
  {
    if a.infraType == Hadoop then
      if a.hiveserverHost.None? then Some(HostMissing)
      else if a.hiveserverPort.None? then Some(PortMissing)
      else None
    else if a.gcloudProjectId.None? then Some(ProjectMissing)
    else if a.gcloudStorageBucketId.None? then Some(BucketMissing)
    else None
  }

  /** main: the defaults for the schema location and the destination table, and the infrastructure checks. */
  function ResolveOptions(a: Args): Result<Settings>
  {
    match MissingConnection(a)
    case Some(e) => Err(e)
    case None =>
      var hadoop := a.infraType == Hadoop;
      Ok(Settings(
        a.infraType, a.mongo, a.sourceDb, a.sourceCollection, a.sourceSortByField, a.query, a.tmpPath,
        if a.schemaDb.Some? then a.schemaDb.value else a.sourceDb,
        if a.schemaCollection.Some? then a.schemaCollection.value else a.sourceCollection + "_schema",
        if hadoop then a.hiveserverHost else None, if hadoop then a.hiveserverPort else None,
        if hadoop then None else a.gcloudProjectId, if hadoop then None else a.gcloudStorageBucketId,
        a.writeDisposition,
        if a.destTableName.Some? then a.destTableName.value else a.sourceCollection,
        a.destDbName, a.useMr))
  }

  /**
   * main fails exactly when the chosen infrastructure misses its
   * connection settings: host and port for hadoop, project and bucket for
   * anything else.
   */
  lemma OptionsFailIff(a: Args)
    ensures ResolveOptions(a).Err? <==>
              if a.infraType == Hadoop then a.hiveserverHost.None? || a.hiveserverPort.None?
              else a.gcloudProjectId.None? || a.gcloudStorageBucketId.None?
  {
  }

  /**
   * The resolved settings: the schema database defaults to the source
   * database, the schema collection to "<collection>_schema", the
   * destination table to the collection; the given values win otherwise.
   */
  lemma OptionDefaults(a: Args)
    requires ResolveOptions(a).Ok?
    ensures var s := ResolveOptions(a).value;
            s.schemaDbName == (if a.schemaDb.None? then a.sourceDb else a.schemaDb.value) &&
            s.schemaCollectionName == (if a.schemaCollection.None? then a.sourceCollection + "_schema" else a.schemaCollection.value) &&
            s.dwTableName == (if a.destTableName.None? then a.sourceCollection else a.destTableName.value) &&
            s.dwDatabaseName == a.destDbName
    ensures var s := ResolveOptions(a).value;
            (a.infraType == Hadoop ==> s.hiveserverHost.Some? && s.hiveserverPort.Some?) &&
            (a.infraType != Hadoop ==> s.gcloudProjectId.Some? && s.gcloudStorageBucketId.Some?)
  {
  }

  // ---------------------------------------------------------------------------
  // Table names for the load
  // ---------------------------------------------------------------------------

  /** load_dw: fragment "root" loads into the base table, any other into "<base>_<fragment>". */
  function FragmentTable(base: string, fragment: string): string
  {
    if fragment == "root" then base else base + "_" + fragment
  }

  /** Distinct fragments load into distinct tables. */
  lemma FragmentTablesDistinct(base: string, f1: string, f2: string)
    requires f1 != f2
    ensures FragmentTable(base, f1) != FragmentTable(base, f2)
  {
    if f1 != "root" && f2 != "root" {
      assert FragmentTable(base, f1)[|base| + 1..] == f1;
      assert FragmentTable(base, f2)[|base| + 1..] == f2;
    }
  }

  /** The loads of load_dw: (shard value, table) per fragment; with no fragments one load of the base table, shard None. */
  function LoadTargets(base: string, fragments: Option<seq<string>>): (r: seq<(Option<string>, string)>)
    ensures fragments.None? || fragments.value == [] ==> r == [(None, base)]
    ensures fragments.Some? && fragments.value != [] ==>
              |r| == |fragments.value| &&
              forall i :: 0 <= i < |r| ==> r[i] == (Some(fragments.value[i]), FragmentTable(base, fragments.value[i]))
  {
    if fragments.None? || fragments.value == [] then [(None, base)]
    else seq(|fragments.value|, i requires 0 <= i < |fragments.value| =>
               (Some(fragments.value[i]), FragmentTable(base, fragments.value[i])))
  }

  /** load_table_hive's table: "<table>_<shard>" per shard, or the table itself. */
  function FullTableName(table: string, shard: Option<string>, differentTablePerShard: bool): string
  {
    if differentTablePerShard then table + "_" + PyStr(shard) else table
  }

  /** The cloud storage folder of a shard's transformed data; shard None gives the folder "None". */
  function LoadPath(collection: string, shard: Option<string>): (r: string)
    ensures StartsWith(r, CloudStoragePath + "/" + collection + "/data_transform/output/")
    ensures EndsWith(r, "/" + PyStr(shard) + "/")
  {
    var prefix := CloudStoragePath + "/" + collection + "/data_transform/output/";
    var r := prefix + PyStr(shard) + "/";
    assert r[..|prefix|] == prefix;
    assert r[|r| - |"/" + PyStr(shard) + "/"|..] == "/" + PyStr(shard) + "/";
    r
  }

  /** The load statements of load_dw, one per target, in order. */
  function LoadStatements(collection: string, base: string, fragments: Option<seq<string>>): (r: seq<Warehouse.Statement>)
    ensures |r| == |LoadTargets(base, fragments)|
  {
    var ts := LoadTargets(base, fragments);
    seq(|ts|, i requires 0 <= i < |ts| => Warehouse.LoadData(LoadPath(collection, ts[i].0), ts[i].1))
  }

  /**
   * Every load goes to a distinct table: the tables named by the loads of
   * distinct fragments differ, and each is the base table or starts with
   * "<base>_".
   */
  lemma LoadsHitDistinctTables(collection: string, base: string, fragments: seq<string>)
    requires fragments != []
    requires forall i, j :: 0 <= i < j < |fragments| ==> fragments[i] != fragments[j]
    ensures var ls := LoadStatements(collection, base, Some(fragments));
            forall i, j :: 0 <= i < j < |ls| ==> ls[i].table != ls[j].table
    ensures var ls := LoadStatements(collection, base, Some(fragments));
            forall i :: 0 <= i < |ls| ==> ls[i].table == base || StartsWith(ls[i].table, base + "_")
  {
    var ls := LoadStatements(collection, base, Some(fragments));
    forall i, j | 0 <= i < j < |ls|
      ensures ls[i].table != ls[j].table
    {
      FragmentTablesDistinct(base, fragments[i], fragments[j]);
    }
    forall i | 0 <= i < |ls|
      ensures ls[i].table == base || StartsWith(ls[i].table, base + "_")
    {
      var t := FragmentTable(base, fragments[i]);
      if fragments[i] != "root" {
        assert t[..|base + "_"|] == base + "_";
      }
    }
  }

  // ---------------------------------------------------------------------------
  // extract_data
  // ---------------------------------------------------------------------------

  /** A policy that demands its field: its "required" entry is truthy. */
  predicate IsRequired(p: Policy)
  {
    p.required.Some? && Truthy(p.required.value)
  }

  /**
   * The policy check: the first required field, in the order of
   * required_fields, that the document resolves to None.
   */
  function FirstMissing(rf: RequiredFields, doc: Json): (r: Option<string>)
    ensures r.Some? ==> exists i :: 0 <= i < |rf| && rf[i].0 == r.value && IsRequired(rf[i].1) && JsonpathGet(doc, rf[i].0) == JNull
    decreases |rf|
  {
    if rf == [] then None
    else if IsRequired(rf[0].1) && JsonpathGet(doc, rf[0].0) == JNull then Some(rf[0].0)
    else
      var r := FirstMissing(rf[1..], doc);
      assert r.Some? ==> exists i :: 0 < i < |rf| && rf[i] == rf[1..][i - 1] && rf[i].0 == r.value;
      r
  }

  /** A document is rejected exactly when some required field resolves to None in it. */
  lemma {:induction false} FirstMissingIff(rf: RequiredFields, doc: Json)
    ensures FirstMissing(rf, doc).Some? <==>
              exists i :: 0 <= i < |rf| && IsRequired(rf[i].1) && JsonpathGet(doc, rf[i].0) == JNull
    decreases |rf|
  {
    if rf != [] && !(IsRequired(rf[0].1) && JsonpathGet(doc, rf[0].0) == JNull) {
      FirstMissingIff(rf[1..], doc);
      if exists i :: 0 <= i < |rf| && IsRequired(rf[i].1) && JsonpathGet(doc, rf[i].0) == JNull {
        var i :| 0 <= i < |rf| && IsRequired(rf[i].1) && JsonpathGet(doc, rf[i].0) == JNull;
        assert rf[1..][i - 1] == rf[i];
      }
    }
  }

  /** One line of a reject file: the missing field and the document. */
  datatype Rejection = Rejection(missing: string, doc: Json)

  /**
   * What extract_data reads and changes: the loader's counters, file-name
   * lists and sort-field bounds (JNull while None), which outlive the call,
   * and the lines written to the part and reject files this call opens.
   */
  datatype Extraction = Extraction(
    extracted: nat, rejected: nat,
    fileNames: seq<string>, rejectNames: seq<string>,
    sortMin: Json, sortMax: Json,
    parts: seq<seq<Json>>, rejects: seq<seq<Rejection>>)

  /** A number of records per file. */
  type PartSize = n: nat | 0 < n witness 1

  /**
   * The loader settings extract_data reads: the folders of the part and
   * reject files, the sort field, the required fields, and the records per
   * file (NUM_RECORDS_PER_PART).
   */
  datatype ExtractConfig = ExtractConfig(dataDir: string, rejectDir: string, sortByField: string, required: RequiredFields, partSize: PartSize)

  /** The settings of a loader: the files go to <tmp_path>/<collection>/data and <tmp_path>/<collection>/rejected. */
  function ConfigFor(tmpPath: string, collectionName: string, sortByField: string, required: RequiredFields): (cfg: ExtractConfig)
    ensures cfg.partSize == NumRecordsPerPart
  {
    var dir := PathJoin(tmpPath, collectionName);
    ExtractConfig(PathJoin(dir, "data"), PathJoin(dir, "rejected"), sortByField, required, NumRecordsPerPart)
  }

  const UnboundPart := "UnboundLocalError: local variable 'extract_file_codec' referenced before assignment"
  const UnboundReject := "UnboundLocalError: local variable 'reject_file_codec' referenced before assignment"

  /** `data[field]` on a document without it. */
  function KeyError(field: string): string
  {
    "KeyError: " + field
  }

  /** The n-th part file: <data folder>/<n>. */
  function PartFile(cfg: ExtractConfig, n: nat): string
  {
    PathJoin(cfg.dataDir, NatToString(n))
  }

  /** The n-th reject file: <reject folder>/<n>. */
  function RejectFile(cfg: ExtractConfig, n: nat): string
  {
    PathJoin(cfg.rejectDir, NatToString(n))
  }

  /** The names of the first n part files, numbered from 1. */
  function PartFiles(cfg: ExtractConfig, n: nat): (r: seq<string>)
    ensures |r| == n
  {
    seq(n, k requires 0 <= k < n => PartFile(cfg, k + 1))
  }

  /** The names of the first n reject files, numbered from 1. */
  function RejectFiles(cfg: ExtractConfig, n: nat): (r: seq<string>)
    ensures |r| == n
  {
    seq(n, k requires 0 <= k < n => RejectFile(cfg, k + 1))
  }

  /** Open the next part file and record its name. */
  function OpenPart(cfg: ExtractConfig, s: Extraction): Extraction
  {
    s.(fileNames := s.fileNames + [PartFile(cfg, |s.parts| + 1)], parts := s.parts + [[]])
  }

  /** Open the next reject file and record its name. */
  function OpenReject(cfg: ExtractConfig, s: Extraction): Extraction
  {
    s.(rejectNames := s.rejectNames + [RejectFile(cfg, |s.rejects| + 1)], rejects := s.rejects + [[]])
  }

  /** The rejected branch: open a reject file on a boundary, count the document, write its line. */
  function RejectDoc(cfg: ExtractConfig, s: Extraction, line: Rejection): (Extraction, Option<string>)
  {
    var s1 := if s.rejected % cfg.partSize == 0 then OpenReject(cfg, s) else s;
    var s2 := s1.(rejected := s1.rejected + 1);
    if s2.rejects == [] then (s2, Some(UnboundReject)) else (s2.(rejects := AppendLast(s2.rejects, line)), None)
  }

  /** The accepted branch: count the document and write it to the current part. */
  function AcceptDoc(s: Extraction, doc: Json): (Extraction, Option<string>)
  {
    var s1 := s.(extracted := s.extracted + 1);
    if s1.parts == [] then (s1, Some(UnboundPart)) else (s1.(parts := AppendLast(s1.parts, doc)), None)
  }

  /** Track the sort-field bounds: the minimum is the first value that is not None, the maximum the last. */
  function Track(s: Extraction, v: Json): Extraction
  {
    s.(sortMin := if s.sortMin == JNull then v else s.sortMin, sortMax := v)
  }

  /**
   * Open a part on a boundary of the extracted count, then reject the
   * document for its missing field or write it.
   */
  function Place(cfg: ExtractConfig, s: Extraction, missing: Option<string>, doc: Json): (Extraction, Option<string>)
  {
    var s1 := if s.extracted % cfg.partSize == 0 then OpenPart(cfg, s) else s;
    if missing.Some? then RejectDoc(cfg, s1, Rejection(missing.value, doc)) else AcceptDoc(s1, doc)
  }

  /**
   * One document of the query's result; the error is the exception that
   * ends the loop.
   */
  function ExtractStep(cfg: ExtractConfig, s: Extraction, doc: seq<(string, Json)>): (Extraction, Option<string>)
  {
    var v := Get(doc, cfg.sortByField);
    if v.None? then (s, Some(KeyError(cfg.sortByField)))
    else Place(cfg, Track(s, v.value), FirstMissing(cfg.required, JObject(doc)), JObject(doc))
  }

  /** The documents in order, up to the first exception. */
  function ExtractAll(cfg: ExtractConfig, s: Extraction, docs: seq<seq<(string, Json)>>): (Extraction, Option<string>)
    decreases |docs|
  {
    if docs == [] then (s, None)
    else
      var (s1, e) := ExtractStep(cfg, s, docs[0]);
      if e.Some? then (s1, e) else ExtractAll(cfg, s1, docs[1..])
  }

  /** ExtractAll from the i-th document: one step, then the rest unless the step raised. */
  lemma ExtractAllFrom(cfg: ExtractConfig, s: Extraction, docs: seq<seq<(string, Json)>>, i: nat)
    requires i < |docs|
    ensures ExtractAll(cfg, s, docs[i..]) ==
            var step := ExtractStep(cfg, s, docs[i]);
            if step.1.Some? then step else ExtractAll(cfg, step.0, docs[i + 1..])
  {
    assert docs[i..][0] == docs[i] && docs[i..][1..] == docs[i + 1..];
  }

  /** The document itself if the policy check passes it, else nothing. */
  function AcceptedOne(cfg: ExtractConfig, doc: seq<(string, Json)>): seq<Json>
  {
    if FirstMissing(cfg.required, JObject(doc)).None? then [JObject(doc)] else []
  }

  /** The reject line of the document if the policy check fails it, else nothing. */
  function RejectedOne(cfg: ExtractConfig, doc: seq<(string, Json)>): seq<Rejection>
  {
    var m := FirstMissing(cfg.required, JObject(doc));
    if m.Some? then [Rejection(m.value, JObject(doc))] else []
  }

  /** The documents the policy check passes, in order. */
  function Accepted(cfg: ExtractConfig, docs: seq<seq<(string, Json)>>): seq<Json>
    decreases |docs|
  {
    if docs == [] then [] else AcceptedOne(cfg, docs[0]) + Accepted(cfg, docs[1..])
  }

  /** The reject lines of the documents the policy check fails, in order. */
  function Rejections(cfg: ExtractConfig, docs: seq<seq<(string, Json)>>): seq<Rejection>
    decreases |docs|
  {
    if docs == [] then [] else RejectedOne(cfg, docs[0]) + Rejections(cfg, docs[1..])
  }

  /** Each document is accepted or rejected, never both: the two lists together are as long as the input. */
  lemma {:induction false} EveryDocumentCountedOnce(cfg: ExtractConfig, docs: seq<seq<(string, Json)>>)
    ensures |Accepted(cfg, docs)| + |Rejections(cfg, docs)| == |docs|
    decreases |docs|
  {
    if docs != [] {
      EveryDocumentCountedOnce(cfg, docs[1..]);
    }
  }

  /**
   * A state from which no document meets an unopened file: a file is open
   * whenever the count will not open one.
   */
  predicate Ready(cfg: ExtractConfig, s: Extraction)
  {
    (s.extracted % cfg.partSize != 0 ==> s.parts != []) &&
    (s.rejected % cfg.partSize != 0 ==> s.rejects != [])
  }

  /** Every part holds at most `size` documents, and the current one started on a boundary of the extracted count. */
  ghost predicate PartsBounded(parts: seq<seq<Json>>, extracted: nat, size: PartSize)
  {
    (forall k :: 0 <= k < |parts| ==> |parts[k]| <= size) &&
    (parts != [] ==> |parts[|parts| - 1]| <= extracted && (extracted - |parts[|parts| - 1]|) % size == 0)
  }

  /** A part opened on a boundary keeps the parts bounded. */
  lemma BoundedOpen(parts: seq<seq<Json>>, extracted: nat, size: PartSize)
    requires PartsBounded(parts, extracted, size) && extracted % size == 0
    ensures PartsBounded(parts + [[]], extracted, size)
  {
  }

  lemma MulAtLeast(k: int, n: int)
    requires k >= 1 && n > 0
    ensures k * n >= n
  {
  }

  /** The remainder is the r of any e == q * n + r with 0 <= r < n. */
  lemma ModUnique(e: int, n: int, q: int, r: int)
    requires n > 0 && 0 <= r < n && e == q * n + r
    ensures e % n == r
  {
    var q2 := e / n;
    var r2 := e % n;
    assert (q - q2) * n == r2 - r;
    if q > q2 {
      MulAtLeast(q - q2, n);
    } else if q2 > q {
      MulAtLeast(q2 - q, n);
    }
  }

  /** Taking n away leaves the remainder by n as it was. */
  lemma ModSub(e: int, n: int)
    requires 0 < n <= e
    ensures (e - n) % n == e % n
  {
    var q := (e - n) / n;
    var r := (e - n) % n;
    assert e == (q + 1) * n + r;
    ModUnique(e, n, q + 1, r);
  }

  /** A document written to a part that is new on a boundary, or that is not on one, keeps the parts bounded. */
  lemma BoundedAppend(parts: seq<seq<Json>>, extracted: nat, size: PartSize, doc: Json)
    requires PartsBounded(parts, extracted, size) && parts != []
    requires extracted % size == 0 ==> parts[|parts| - 1] == []
    ensures PartsBounded(AppendLast(parts, doc), extracted + 1, size)
  {
    var last := |parts[|parts| - 1]|;
    if extracted % size != 0 {
      assert last != size by {
        if last == size {
          ModSub(extracted, size);
        }
      }
    }
    assert (extracted + 1 - (last + 1)) % size == 0;
  }

  /** The part files opened so far are named in order after the names recorded before the call. */
  ghost predicate PartsNamed(cfg: ExtractConfig, s: Extraction, names0: seq<string>)
  {
    s.fileNames == names0 + PartFiles(cfg, |s.parts|)
  }

  /** The reject files opened so far are named in order after the names recorded before the call. */
  ghost predicate RejectsNamed(cfg: ExtractConfig, s: Extraction, rejectNames0: seq<string>)
  {
    s.rejectNames == rejectNames0 + RejectFiles(cfg, |s.rejects|)
  }

  lemma PartFilesNext(cfg: ExtractConfig, n: nat)
    ensures PartFiles(cfg, n + 1) == PartFiles(cfg, n) + [PartFile(cfg, n + 1)]
  {
  }

  lemma RejectFilesNext(cfg: ExtractConfig, n: nat)
    ensures RejectFiles(cfg, n + 1) == RejectFiles(cfg, n) + [RejectFile(cfg, n + 1)]
  {
  }

  /** A document without the sort field raises KeyError and changes nothing. */
  lemma StepMissingSortField(cfg: ExtractConfig, s: Extraction, doc: seq<(string, Json)>)
    requires !HasKey(doc, cfg.sortByField)
    ensures ExtractStep(cfg, s, doc) == (s, Some(KeyError(cfg.sortByField)))
  {
  }

  /** Writing an accepted document to an open part: one more extracted, its line last in the part files. */
  lemma AcceptDocWrites(s: Extraction, doc: Json)
    requires s.parts != []
    ensures var (t, e) := AcceptDoc(s, doc);
            e.None? && t == s.(extracted := s.extracted + 1, parts := t.parts) &&
            t.parts != [] && Concat(t.parts) == Concat(s.parts) + [doc]
    ensures AcceptDoc(s, doc).0.parts == AppendLast(s.parts, doc)
  {
    ConcatAppend(s.parts, doc);
  }

  /** Rejecting a document when a reject file is open or due: one more rejected, its line last in the reject files. */
  lemma RejectDocWrites(cfg: ExtractConfig, s: Extraction, line: Rejection)
    requires s.rejected % cfg.partSize != 0 ==> s.rejects != []
    ensures var (t, e) := RejectDoc(cfg, s, line);
            e.None? && t == s.(rejected := s.rejected + 1, rejects := t.rejects, rejectNames := t.rejectNames) &&
            t.rejects != [] && Concat(t.rejects) == Concat(s.rejects) + [line]
    ensures var t := RejectDoc(cfg, s, line).0;
            if s.rejected % cfg.partSize == 0 then
              |t.rejects| == |s.rejects| + 1 && t.rejectNames == s.rejectNames + [RejectFile(cfg, |s.rejects| + 1)]
            else |t.rejects| == |s.rejects| && t.rejectNames == s.rejectNames
  {
    ConcatAppend(s.rejects, line);
    if s.rejected % cfg.partSize == 0 {
      ConcatAppend(s.rejects + [[]], line);
    }
  }

  /**
   * From a ready state an accepted document raises nothing: it is counted
   * as extracted and written at the end of the part files; the reject
   * files are left alone.
   */
  lemma PlaceAccepted(cfg: ExtractConfig, s: Extraction, doc: Json)
    requires Ready(cfg, s)
    ensures var (t, e) := Place(cfg, s, None, doc);
            e.None? && Ready(cfg, t) && t.extracted == s.extracted + 1 && t.rejected == s.rejected &&
            t.rejects == s.rejects && t.rejectNames == s.rejectNames &&
            t.sortMin == s.sortMin && t.sortMax == s.sortMax &&
            Concat(t.parts) == Concat(s.parts) + [doc]
  {
    var s1 := if s.extracted % cfg.partSize == 0 then OpenPart(cfg, s) else s;
    ConcatAppend(s.parts, doc);
    assert Concat(s1.parts) == Concat(s.parts);
    AcceptDocWrites(s1, doc);
  }

  /**
   * From a ready state a rejected document raises nothing: it is counted
   * as rejected and its line written at the end of the reject files; the
   * part files gain at most an empty file.
   */
  lemma PlaceRejected(cfg: ExtractConfig, s: Extraction, missing: string, doc: Json)
    requires Ready(cfg, s)
    ensures var (t, e) := Place(cfg, s, Some(missing), doc);
            e.None? && Ready(cfg, t) && t.extracted == s.extracted && t.rejected == s.rejected + 1 &&
            t.sortMin == s.sortMin && t.sortMax == s.sortMax &&
            Concat(t.parts) == Concat(s.parts) && Concat(t.rejects) == Concat(s.rejects) + [Rejection(missing, doc)]
  {
    var s1 := if s.extracted % cfg.partSize == 0 then OpenPart(cfg, s) else s;
    ConcatAppend(s.parts, doc);
    assert Concat(s1.parts) == Concat(s.parts);
    RejectDocWrites(cfg, s1, Rejection(missing, doc));
  }

  /** Placing a document keeps every part within the part size. */
  lemma PlaceBounded(cfg: ExtractConfig, s: Extraction, missing: Option<string>, doc: Json)
    requires Ready(cfg, s) && PartsBounded(s.parts, s.extracted, cfg.partSize)
    ensures var t := Place(cfg, s, missing, doc).0;
            PartsBounded(t.parts, t.extracted, cfg.partSize)
  {
    var parts1 := if s.extracted % cfg.partSize == 0 then s.parts + [[]] else s.parts;
    if s.extracted % cfg.partSize == 0 {
      BoundedOpen(s.parts, s.extracted, cfg.partSize);
    }
    PlaceParts(cfg, s, missing, doc);
    if missing.None? {
      BoundedAppend(parts1, s.extracted, cfg.partSize, doc);
    }
  }

  /** The part files and the extracted count after placing a document. */
  lemma PlaceParts(cfg: ExtractConfig, s: Extraction, missing: Option<string>, doc: Json)
    requires Ready(cfg, s)
    ensures var parts1 := if s.extracted % cfg.partSize == 0 then s.parts + [[]] else s.parts;
            var t := Place(cfg, s, missing, doc).0;
            parts1 != [] && (s.extracted % cfg.partSize == 0 ==> parts1[|parts1| - 1] == []) &&
            (missing.Some? ==> t.parts == parts1 && t.extracted == s.extracted) &&
            (missing.None? ==> t.parts == AppendLast(parts1, doc) && t.extracted == s.extracted + 1)
  {
    var s1 := if s.extracted % cfg.partSize == 0 then OpenPart(cfg, s) else s;
    if missing.None? {
      AcceptDocWrites(s1, doc);
    } else {
      RejectDocWrites(cfg, s1, Rejection(missing.value, doc));
    }
  }

  /** Placing a document keeps the recorded part file names in step with the part files opened. */
  lemma PlacePartsNamed(cfg: ExtractConfig, s: Extraction, missing: Option<string>, doc: Json, names0: seq<string>)
    requires Ready(cfg, s) && PartsNamed(cfg, s, names0)
    ensures PartsNamed(cfg, Place(cfg, s, missing, doc).0, names0)
  {
    var s1 := if s.extracted % cfg.partSize == 0 then OpenPart(cfg, s) else s;
    PartFilesNext(cfg, |s.parts|);
    assert PartsNamed(cfg, s1, names0);
    if missing.None? {
      AcceptDocWrites(s1, doc);
    } else {
      RejectDocWrites(cfg, s1, Rejection(missing.value, doc));
    }
  }

  /** Placing a document keeps the recorded reject file names in step with the reject files opened. */
  lemma PlaceRejectsNamed(cfg: ExtractConfig, s: Extraction, missing: Option<string>, doc: Json, rejectNames0: seq<string>)
    requires Ready(cfg, s) && RejectsNamed(cfg, s, rejectNames0)
    ensures RejectsNamed(cfg, Place(cfg, s, missing, doc).0, rejectNames0)
  {
    var s1 := if s.extracted % cfg.partSize == 0 then OpenPart(cfg, s) else s;
    if missing.None? {
      AcceptDocWrites(s1, doc);
    } else {
      RejectDocWrites(cfg, s1, Rejection(missing.value, doc));
      RejectOpenNamed(cfg, s.rejectNames, |s.rejects|, rejectNames0);
    }
  }

  /** Recording the name of the next reject file keeps the names in step. */
  lemma RejectOpenNamed(cfg: ExtractConfig, names: seq<string>, n: nat, rejectNames0: seq<string>)
    requires names == rejectNames0 + RejectFiles(cfg, n)
    ensures names + [RejectFile(cfg, n + 1)] == rejectNames0 + RejectFiles(cfg, n + 1)
  {
    RejectFilesNext(cfg, n);
  }

  /**
   * A rejected document on a boundary of the extracted count still opens
   * a part, which stays empty if the next documents are rejected too.
   */
  lemma RejectOnBoundaryOpensEmptyPart(cfg: ExtractConfig, s: Extraction, doc: seq<(string, Json)>)
    requires HasKey(doc, cfg.sortByField) && s.extracted % cfg.partSize == 0
    requires FirstMissing(cfg.required, JObject(doc)).Some?
    ensures ExtractStep(cfg, s, doc).0.parts == s.parts + [[]]
  {
  }

  /** The sort-field value of a document that has the field. */
  function SortValue(cfg: ExtractConfig, doc: seq<(string, Json)>): Json
    requires HasKey(doc, cfg.sortByField)
  {
    Get(doc, cfg.sortByField).value
  }

  /** Every document has the sort field. */
  ghost predicate AllSortable(cfg: ExtractConfig, docs: seq<seq<(string, Json)>>)
  {
    forall i :: 0 <= i < |docs| ==> HasKey(docs[i], cfg.sortByField)
  }

  /**
   * From a ready state, extract_data fails exactly when some document
   * lacks the sort field, and then with KeyError; the state it stops in is
   * still ready.
   */
  lemma {:induction false} ExtractAllFails(cfg: ExtractConfig, s: Extraction, docs: seq<seq<(string, Json)>>)
    requires Ready(cfg, s)
    ensures var (t, e) := ExtractAll(cfg, s, docs);
            Ready(cfg, t) && (e.None? <==> AllSortable(cfg, docs)) && (e.Some? ==> e.value == KeyError(cfg.sortByField))
    decreases |docs|
  {
    if docs != [] {
      var doc := docs[0];
      if HasKey(doc, cfg.sortByField) {
        var s1 := Track(s, SortValue(cfg, doc));
        var m := FirstMissing(cfg.required, JObject(doc));
        if m.Some? {
          PlaceRejected(cfg, s1, m.value, JObject(doc));
        } else {
          PlaceAccepted(cfg, s1, JObject(doc));
        }
        var t1 := ExtractStep(cfg, s, doc).0;
        ExtractAllFails(cfg, t1, docs[1..]);
        assert AllSortable(cfg, docs) <==> AllSortable(cfg, docs[1..]) by {
          assert forall i :: 0 < i < |docs| ==> docs[i] == docs[1..][i - 1];
        }
      } else {
        assert !AllSortable(cfg, docs);
      }
    }
  }

  /** One document with the sort field, from a ready state: its line is written once, to the part or the reject files. */
  lemma StepWrites(cfg: ExtractConfig, s: Extraction, doc: seq<(string, Json)>)
    requires Ready(cfg, s) && HasKey(doc, cfg.sortByField)
    ensures var (t, e) := ExtractStep(cfg, s, doc);
            e.None? && Ready(cfg, t) &&
            t.extracted == s.extracted + |AcceptedOne(cfg, doc)| && t.rejected == s.rejected + |RejectedOne(cfg, doc)| &&
            Concat(t.parts) == Concat(s.parts) + AcceptedOne(cfg, doc) &&
            Concat(t.rejects) == Concat(s.rejects) + RejectedOne(cfg, doc)
  {
    var s1 := Track(s, SortValue(cfg, doc));
    var m := FirstMissing(cfg.required, JObject(doc));
    if m.Some? {
      PlaceRejected(cfg, s1, m.value, JObject(doc));
    } else {
      PlaceAccepted(cfg, s1, JObject(doc));
    }
  }

  lemma AppendAssoc<T>(a: seq<T>, b: seq<T>, c: seq<T>)
    ensures a + b + c == a + (b + c)
  {
  }

  /**
   * Without an exception, the accepted documents are counted and written
   * once each, in order, to the part files.
   */
  lemma {:induction false} ExtractAllParts(cfg: ExtractConfig, s: Extraction, docs: seq<seq<(string, Json)>>)
    requires Ready(cfg, s) && AllSortable(cfg, docs)
    ensures var t := ExtractAll(cfg, s, docs).0;
            t.extracted == s.extracted + |Accepted(cfg, docs)| && Concat(t.parts) == Concat(s.parts) + Accepted(cfg, docs)
    decreases |docs|
  {
    if docs != [] {
      var doc := docs[0];
      var rest := docs[1..];
      assert HasKey(doc, cfg.sortByField);
      assert AllSortable(cfg, rest) by {
        assert forall i :: 0 <= i < |rest| ==> rest[i] == docs[i + 1];
      }
      StepWrites(cfg, s, doc);
      ExtractAllParts(cfg, ExtractStep(cfg, s, doc).0, rest);
      AppendAssoc(Concat(s.parts), AcceptedOne(cfg, doc), Accepted(cfg, rest));
    }
  }

  /**
   * Without an exception, each rejected document is counted once and
   * gives one reject line, in order.
   */
  lemma {:induction false} ExtractAllRejects(cfg: ExtractConfig, s: Extraction, docs: seq<seq<(string, Json)>>)
    requires Ready(cfg, s) && AllSortable(cfg, docs)
    ensures var t := ExtractAll(cfg, s, docs).0;
            t.rejected == s.rejected + |Rejections(cfg, docs)| && Concat(t.rejects) == Concat(s.rejects) + Rejections(cfg, docs)
    decreases |docs|
  {
    if docs != [] {
      var doc := docs[0];
      var rest := docs[1..];
      assert HasKey(doc, cfg.sortByField);
      assert AllSortable(cfg, rest) by {
        assert forall i :: 0 <= i < |rest| ==> rest[i] == docs[i + 1];
      }
      StepWrites(cfg, s, doc);
      ExtractAllRejects(cfg, ExtractStep(cfg, s, doc).0, rest);
      AppendAssoc(Concat(s.rejects), RejectedOne(cfg, doc), Rejections(cfg, rest));
    }
  }

  /** Every part stays within the part size, whether or not an exception ends the loop. */
  lemma {:induction false} ExtractAllBounded(cfg: ExtractConfig, s: Extraction, docs: seq<seq<(string, Json)>>)
    requires Ready(cfg, s) && PartsBounded(s.parts, s.extracted, cfg.partSize)
    ensures var t := ExtractAll(cfg, s, docs).0;
            PartsBounded(t.parts, t.extracted, cfg.partSize)
    decreases |docs|
  {
    if docs != [] && HasKey(docs[0], cfg.sortByField) {
      var doc := docs[0];
      var s1 := Track(s, SortValue(cfg, doc));
      var m := FirstMissing(cfg.required, JObject(doc));
      PlaceBounded(cfg, s1, m, JObject(doc));
      if m.Some? {
        PlaceRejected(cfg, s1, m.value, JObject(doc));
      } else {
        PlaceAccepted(cfg, s1, JObject(doc));
      }
      ExtractAllBounded(cfg, ExtractStep(cfg, s, doc).0, docs[1..]);
    }
  }

  /** The recorded file names follow the files opened, numbered from 1 in each folder. */
  lemma {:induction false} ExtractAllNamed(cfg: ExtractConfig, s: Extraction, docs: seq<seq<(string, Json)>>, names0: seq<string>, rejectNames0: seq<string>)
    requires Ready(cfg, s) && PartsNamed(cfg, s, names0) && RejectsNamed(cfg, s, rejectNames0)
    ensures PartsNamed(cfg, ExtractAll(cfg, s, docs).0, names0)
    ensures RejectsNamed(cfg, ExtractAll(cfg, s, docs).0, rejectNames0)
    decreases |docs|
  {
    if docs != [] && HasKey(docs[0], cfg.sortByField) {
      var doc := docs[0];
      var s1 := Track(s, SortValue(cfg, doc));
      var m := FirstMissing(cfg.required, JObject(doc));
      PlacePartsNamed(cfg, s1, m, JObject(doc), names0);
      PlaceRejectsNamed(cfg, s1, m, JObject(doc), rejectNames0);
      if m.Some? {
        PlaceRejected(cfg, s1, m.value, JObject(doc));
      } else {
        PlaceAccepted(cfg, s1, JObject(doc));
      }
      ExtractAllNamed(cfg, ExtractStep(cfg, s, doc).0, docs[1..], names0, rejectNames0);
    }
  }

  /** One document with the sort field, from a ready state: the maximum becomes its value, the minimum too if it was None. */
  lemma StepSortBounds(cfg: ExtractConfig, s: Extraction, doc: seq<(string, Json)>)
    requires Ready(cfg, s) && HasKey(doc, cfg.sortByField)
    ensures var (t, e) := ExtractStep(cfg, s, doc);
            e.None? && Ready(cfg, t) && t.sortMax == SortValue(cfg, doc) &&
            t.sortMin == if s.sortMin == JNull then SortValue(cfg, doc) else s.sortMin
  {
    var s1 := Track(s, SortValue(cfg, doc));
    var m := FirstMissing(cfg.required, JObject(doc));
    if m.Some? {
      PlaceRejected(cfg, s1, m.value, JObject(doc));
    } else {
      PlaceAccepted(cfg, s1, JObject(doc));
    }
  }

  /** Without an exception, the maximum of the sort field is the value of the last document. */
  lemma {:induction false} ExtractAllSortMax(cfg: ExtractConfig, s: Extraction, docs: seq<seq<(string, Json)>>)
    requires Ready(cfg, s) && AllSortable(cfg, docs) && docs != []
    ensures SortValue(cfg, docs[|docs| - 1]) == ExtractAll(cfg, s, docs).0.sortMax
    decreases |docs|
  {
    StepSortBounds(cfg, s, docs[0]);
    if |docs| > 1 {
      var rest := docs[1..];
      assert AllSortable(cfg, rest) by {
        assert forall i :: 0 <= i < |rest| ==> rest[i] == docs[i + 1];
      }
      ExtractAllSortMax(cfg, ExtractStep(cfg, s, docs[0]).0, rest);
      assert rest[|rest| - 1] == docs[|docs| - 1];
    }
  }

  /**
   * Without an exception, the minimum of the sort field, once set to a
   * value that is not None, stays; from None it becomes the first
   * document's value when that is not None.
   */
  lemma {:induction false} ExtractAllSortMin(cfg: ExtractConfig, s: Extraction, docs: seq<seq<(string, Json)>>)
    requires Ready(cfg, s) && AllSortable(cfg, docs)
    ensures s.sortMin != JNull ==> ExtractAll(cfg, s, docs).0.sortMin == s.sortMin
    ensures docs != [] && s.sortMin == JNull && SortValue(cfg, docs[0]) != JNull ==>
              ExtractAll(cfg, s, docs).0.sortMin == SortValue(cfg, docs[0])
    decreases |docs|
  {
    if docs != [] {
      StepSortBounds(cfg, s, docs[0]);
      var rest := docs[1..];
      assert AllSortable(cfg, rest) by {
        assert forall i :: 0 <= i < |rest| ==> rest[i] == docs[i + 1];
      }
      ExtractAllSortMin(cfg, ExtractStep(cfg, s, docs[0]).0, rest);
    }
  }

  // ---------------------------------------------------------------------------
  // The policy check as a loop
  // ---------------------------------------------------------------------------

  /** The loop over required_fields: stop at the first required field the document resolves to None. */
  method FindMissing(rf: RequiredFields, doc: Json) returns (missing: Option<string>)
    ensures missing == FirstMissing(rf, doc)
  {
    var j := 0;
    while j < |rf|
      invariant 0 <= j <= |rf|
      invariant FirstMissing(rf, doc) == FirstMissing(rf[j..], doc)
    {
      var name := rf[j].0;
      var value := FollowPath(doc, name);
      if IsRequired(rf[j].1) && value == JNull {
        return Some(name);
      }
      assert rf[j..][1..] == rf[j + 1..];
      j := j + 1;
    }
    missing := None;
  }

  // ---------------------------------------------------------------------------
  // The loader
  // ---------------------------------------------------------------------------

  /** The table schema load_dw passes on: every field record of the schema collection, in the given order, then hash_code. */
  function SchemaFields(schema: SchemaReducer.Schema, order: seq<string>): (r: seq<Warehouse.SchemaField>)
    requires forall k :: k in order ==> k in schema
    ensures |r| == |order| + 1
  {
    seq(|order|, i requires 0 <= i < |order| =>
          Warehouse.SchemaField(order[i], schema[order[i]].dataType, schema[order[i]].mode, Some("field")))
    + [Warehouse.SchemaField("hash_code", "string", "nullable", None)]
  }

  /**
   * retrieve_schema_fields hands every field record of the schema
   * collection to the warehouse with its data type and mode, each record
   * carrying its "type" entry "field", and hash_code last, a nullable
   * string without one.
   */
  lemma SchemaFieldsCover(schema: SchemaReducer.Schema, order: seq<string>)
    requires forall k :: k in schema <==> k in order
    ensures var r := SchemaFields(schema, order);
            r[|r| - 1] == Warehouse.SchemaField("hash_code", "string", "nullable", None) &&
            forall k :: k in schema ==>
              exists i :: 0 <= i < |r| - 1 && r[i] == Warehouse.SchemaField(k, schema[k].dataType, schema[k].mode, Some("field"))
  {
    var r := SchemaFields(schema, order);
    forall k | k in schema
      ensures exists i :: 0 <= i < |r| - 1 && r[i] == Warehouse.SchemaField(k, schema[k].dataType, schema[k].mode, Some("field"))
    {
      var i :| 0 <= i < |order| && order[i] == k;
      assert r[i] == Warehouse.SchemaField(k, schema[k].dataType, schema[k].mode, Some("field"));
    }
  }

  /**
   * The table statements of load_dw, ahead of the loads: with overwrite,
   * drop an existing table and create it afresh; with append, update an
   * existing table or create a missing one. The result is the table names
   * or the exception of create_table or update_table.
   */
  function TablesRun(tables: seq<string>, describe: string -> seq<(string, string)>, db: Option<string>,
                     table: string, fields: seq<Warehouse.SchemaField>, overwrite: bool): (Result<seq<string>>, seq<Warehouse.Executed>)
  {
    var check := [Warehouse.Executed(db, Warehouse.ShowTables)];
    var create := Warehouse.CreateRun(table, fields, Warehouse.ChildTableMode);
    if overwrite then
      var drop := if table in tables
                  then Warehouse.OnDatabase(db, [Warehouse.DropTable(table), Warehouse.ShowTables] + Warehouse.Drops(Warehouse.WithPrefix(Warehouse.AfterDrop(tables, table), table)))
                  else [];
      (create.0, check + drop + Warehouse.OnDatabase(db, create.1))
    else if table in tables then
      var listed := Warehouse.WithPrefix(tables, table);
      var update := Warehouse.UpdateRun(table, fields, listed, describe);
      (update.0, check + [Warehouse.Executed(db, Warehouse.ShowTables)] +
                 Warehouse.OnDatabase(db, Warehouse.DescribeLog(listed, describe, |listed|) + update.1))
    else (create.0, check + Warehouse.OnDatabase(db, create.1))
  }

  /**
   * Appending to an existing table: the check, the listing, the
   * descriptions, then the update's statements, after whatever log0 holds.
   */
  lemma AppendExisting(log0: seq<Warehouse.Executed>, tables: seq<string>, describe: string -> seq<(string, string)>,
                       db: Option<string>, table: string, fields: seq<Warehouse.SchemaField>)
    requires table in tables
    ensures var check := Warehouse.Executed(db, Warehouse.ShowTables);
            var listed := Warehouse.WithPrefix(tables, table);
            var update := Warehouse.UpdateRun(table, fields, listed, describe);
            var run := TablesRun(tables, describe, db, table, fields, false);
            run.0 == update.0 &&
            log0 + [check] + [check] + Warehouse.OnDatabase(db, Warehouse.DescribeLog(listed, describe, |listed|) + update.1) ==
              log0 + run.1
  {
    var check := Warehouse.Executed(db, Warehouse.ShowTables);
    var listed := Warehouse.WithPrefix(tables, table);
    var rest := Warehouse.OnDatabase(db, Warehouse.DescribeLog(listed, describe, |listed|) +
                                         Warehouse.UpdateRun(table, fields, listed, describe).1);
    assert TablesRun(tables, describe, db, table, fields, false).1 == [check] + [check] + rest;
    assert log0 + [check] + [check] + rest == log0 + ([check] + [check] + rest);
  }

  /** Appending to a missing table: the check, then the creation, after whatever log0 holds. */
  lemma AppendMissing(log0: seq<Warehouse.Executed>, tables: seq<string>, describe: string -> seq<(string, string)>,
                      db: Option<string>, table: string, fields: seq<Warehouse.SchemaField>)
    requires table !in tables
    ensures var create := Warehouse.CreateRun(table, fields, Warehouse.ChildTableMode);
            var run := TablesRun(tables, describe, db, table, fields, false);
            run.0 == create.0 &&
            log0 + [Warehouse.Executed(db, Warehouse.ShowTables)] + Warehouse.OnDatabase(db, create.1) == log0 + run.1
  {
    var check := [Warehouse.Executed(db, Warehouse.ShowTables)];
    var rest := Warehouse.OnDatabase(db, Warehouse.CreateRun(table, fields, Warehouse.ChildTableMode).1);
    assert TablesRun(tables, describe, db, table, fields, false).1 == check + rest;
    assert log0 + check + rest == log0 + (check + rest);
  }

  /**
   * Overwriting an existing table: the check, the drop of the table and of
   * its child tables, then the creation, after whatever log0 holds.
   */
  lemma ReplaceExisting(log0: seq<Warehouse.Executed>, tables: seq<string>, describe: string -> seq<(string, string)>,
                        db: Option<string>, table: string, fields: seq<Warehouse.SchemaField>)
    requires table in tables
    ensures var create := Warehouse.CreateRun(table, fields, Warehouse.ChildTableMode);
            var run := TablesRun(tables, describe, db, table, fields, true);
            run.0 == create.0 &&
            log0 + [Warehouse.Executed(db, Warehouse.ShowTables)] +
              Warehouse.OnDatabase(db, [Warehouse.DropTable(table), Warehouse.ShowTables] +
                                       Warehouse.Drops(Warehouse.WithPrefix(Warehouse.AfterDrop(tables, table), table))) +
              Warehouse.OnDatabase(db, create.1) == log0 + run.1
  {
    var check := [Warehouse.Executed(db, Warehouse.ShowTables)];
    var create := Warehouse.OnDatabase(db, Warehouse.CreateRun(table, fields, Warehouse.ChildTableMode).1);
    var drop := Warehouse.OnDatabase(db, [Warehouse.DropTable(table), Warehouse.ShowTables] +
                                         Warehouse.Drops(Warehouse.WithPrefix(Warehouse.AfterDrop(tables, table), table)));
    assert TablesRun(tables, describe, db, table, fields, true).1 == check + drop + create;
    assert log0 + check + drop + create == log0 + (check + drop + create);
  }

  /** Overwriting a missing table: the check, then the creation, after whatever log0 holds. */
  lemma ReplaceMissing(log0: seq<Warehouse.Executed>, tables: seq<string>, describe: string -> seq<(string, string)>,
                       db: Option<string>, table: string, fields: seq<Warehouse.SchemaField>)
    requires table !in tables
    ensures var create := Warehouse.CreateRun(table, fields, Warehouse.ChildTableMode);
            var run := TablesRun(tables, describe, db, table, fields, true);
            run.0 == create.0 &&
            log0 + [Warehouse.Executed(db, Warehouse.ShowTables)] + Warehouse.OnDatabase(db, create.1) == log0 + run.1
  {
    var check := [Warehouse.Executed(db, Warehouse.ShowTables)];
    var create := Warehouse.OnDatabase(db, Warehouse.CreateRun(table, fields, Warehouse.ChildTableMode).1);
    assert TablesRun(tables, describe, db, table, fields, true).1 == check + [] + create;
    assert check + [] + create == check + create;
    assert log0 + check + create == log0 + (check + create);
  }

  /** The process_array class attribute: arrays become child tables. */
  const ProcessArray := Warehouse.ChildTableMode

  /** With overwrite, an existing table is dropped right after the check, before anything is created. */
  lemma OverwriteDropsFirst(tables: seq<string>, describe: string -> seq<(string, string)>, db: Option<string>,
                            table: string, fields: seq<Warehouse.SchemaField>)
    requires table in tables
    ensures var log := TablesRun(tables, describe, db, table, fields, true).1;
            |log| >= 2 && log[0] == Warehouse.Executed(db, Warehouse.ShowTables) && log[1] == Warehouse.Executed(db, Warehouse.DropTable(table))
  {
  }

  /** On a table that does not exist yet, append and overwrite do the same: check, then create. */
  lemma MissingTableSameEitherWay(tables: seq<string>, describe: string -> seq<(string, string)>, db: Option<string>,
                                  table: string, fields: seq<Warehouse.SchemaField>)
    requires table !in tables
    ensures TablesRun(tables, describe, db, table, fields, false) == TablesRun(tables, describe, db, table, fields, true)
  {
    var check := [Warehouse.Executed(db, Warehouse.ShowTables)];
    assert check + [] == check;
  }

  /** load_dw with overwrite: drop the table if it exists, then create it. */
  method ReplaceTable(hive: Warehouse.Hive, db: Option<string>, table: string, fields: seq<Warehouse.SchemaField>)
    returns (names: Result<seq<string>>)
    modifies hive
    ensures var run := TablesRun(hive.tables, hive.describe, db, table, fields, true);
            names == run.0 && hive.log == old(hive.log) + run.1
  {
    ghost var log0 := hive.log;
    var found := hive.TableExists(db, table);
    if found {
      ReplaceExisting(log0, hive.tables, hive.describe, db, table, fields);
      hive.DeleteTable(db, table);
    } else {
      ReplaceMissing(log0, hive.tables, hive.describe, db, table, fields);
    }
    names := hive.CreateTable(db, table, fields, ProcessArray);
  }

  /** load_dw with append: update the table if it exists, else create it. */
  method AppendTable(hive: Warehouse.Hive, db: Option<string>, table: string, fields: seq<Warehouse.SchemaField>)
    returns (names: Result<seq<string>>)
    modifies hive
    ensures var run := TablesRun(hive.tables, hive.describe, db, table, fields, false);
            names == run.0 && hive.log == old(hive.log) + run.1
  {
    ghost var log0 := hive.log;
    var found := hive.TableExists(db, table);
    if found {
      AppendExisting(log0, hive.tables, hive.describe, db, table, fields);
      names := hive.UpdateTable(db, table, fields);
    } else {
      AppendMissing(log0, hive.tables, hive.describe, db, table, fields);
      names := hive.CreateTable(db, table, fields, ProcessArray);
    }
  }

  /**
   * class Loader, by the attributes the modelled methods read and write.
   * Mongo is not modelled: the schema collection's field records are the
   * map `schema` and its fragments record is `fragments`.
   */
  class Loader {
    const settings: Settings
    const policies: Option<seq<Policy>>
    var schema: SchemaReducer.Schema
    var fragments: Option<seq<string>>
    var requiredFields: RequiredFields
    var dw: Warehouse.Hive?
    var cs: Option<CloudStorage.Storage>
    var extractFileNames: seq<string>
    var rejectFileNames: seq<string>
    var sortMin: Json              // sort_by_field_min, JNull while None
    var sortMax: Json              // sort_by_field_max, JNull while None
    var numExtracted: nat
    var numRejected: nat
    var dwTableNames: seq<string>

    /** A loader as main builds it, over a schema collection that holds `schema` and `fragments`. */
    constructor(settings: Settings, policies: Option<seq<Policy>>, schema: SchemaReducer.Schema, fragments: Option<seq<string>>)
      ensures this.settings == settings && this.policies == policies
      ensures this.schema == schema && this.fragments == fragments
      ensures requiredFields == [] && dw == null && cs.None?
      ensures extractFileNames == [] && rejectFileNames == [] && sortMin == JNull && sortMax == JNull
      ensures numExtracted == 0 && numRejected == 0 && dwTableNames == []
    {
      this.settings := settings;
      this.policies := policies;
      this.schema := schema;
      this.fragments := fragments;
      requiredFields := [];
      dw := null;
      cs := None;
      extractFileNames := [];
      rejectFileNames := [];
      sortMin := JNull;
      sortMax := JNull;
      numExtracted := 0;
      numRejected := 0;
      dwTableNames := [];
    }

    /** The settings extract_data reads. */
    function Config(): ExtractConfig
      reads this
    {
      ConfigFor(settings.tmpPath, settings.collectionName, settings.sortByField, requiredFields)
    }

    /** The loader's extraction state with the given file contents. */
    function State(parts: seq<seq<Json>>, rejects: seq<seq<Rejection>>): Extraction
      reads this
    {
      Extraction(numExtracted, numRejected, extractFileNames, rejectFileNames, sortMin, sortMax, parts, rejects)
    }

    /**
     * initialize: with overwrite, empty the schema collection, its field
     * records and its fragments record alike; build the
     * warehouse and storage for the infrastructure type; then apply the
     * policies. The Hive host is the attribute hiveserveer_host, which main
     * never sets (it sets hiveserver_host), so the host is always None.
     */
    method Initialize(tables: seq<string>, describe: string -> seq<(string, string)>,
                      answer: string -> seq<seq<Json>>, cwd: string)
      modifies this`schema, this`fragments, this`requiredFields, this`dw, this`cs
      ensures fragments == if settings.writeDisposition == Overwrite then None else old(fragments)
      ensures PolicyState(schema, requiredFields) ==
                ApplyPolicies(PolicyState(if settings.writeDisposition == Overwrite then map[] else old(schema), old(requiredFields)),
                              if policies.Some? then policies.value else [])
      ensures settings.infraType == Hadoop ==>
                dw != null && fresh(dw) && dw.host.None? && dw.port == settings.hiveserverPort &&
                dw.serdesPath == HiveSerdesJar(cwd) && dw.tables == tables && dw.describe == describe &&
                dw.answer == answer && dw.log == [] && cs == Some(CloudStorage.HDFS)
      ensures settings.infraType == GoogleCloud ==>
                dw == null && cs == Some(CloudStorage.GCloud(PyStr(settings.gcloudProjectId), PyStr(settings.gcloudStorageBucketId)))
      ensures settings.infraType != Hadoop && settings.infraType != GoogleCloud ==> dw == old(dw) && cs == old(cs)
    {
      if settings.writeDisposition == Overwrite {
        schema := map[];
        fragments := None;
      }
      Connect(tables, describe, answer, cwd);
      ApplyPolicyFile(if policies.Some? then policies.value else []);
    }

    /**
     * The infrastructure part of initialize: Hive over HDFS for hadoop
     * (its host is read from a misspelt local, so it is always None), no
     * warehouse and a Cloud Storage bucket for gcloud, nothing otherwise.
     */
    method Connect(tables: seq<string>, describe: string -> seq<(string, string)>,
                   answer: string -> seq<seq<Json>>, cwd: string)
      modifies this`dw, this`cs
      ensures settings.infraType == Hadoop ==>
                dw != null && fresh(dw) && dw.host.None? && dw.port == settings.hiveserverPort &&
                dw.serdesPath == HiveSerdesJar(cwd) && dw.tables == tables && dw.describe == describe &&
                dw.answer == answer && dw.log == [] && cs == Some(CloudStorage.HDFS)
      ensures settings.infraType == GoogleCloud ==>
                dw == null && cs == Some(CloudStorage.GCloud(PyStr(settings.gcloudProjectId), PyStr(settings.gcloudStorageBucketId)))
      ensures settings.infraType != Hadoop && settings.infraType != GoogleCloud ==> dw == old(dw) && cs == old(cs)
    {
      if settings.infraType == Hadoop {
        var hiveserveerHost: Option<string> := None;
        dw := new Warehouse.Hive(hiveserveerHost, settings.hiveserverPort, HiveSerdesJar(cwd), tables, describe, answer);
        cs := Some(CloudStorage.HDFS);
      } else if settings.infraType == GoogleCloud {
        dw := null;
        cs := Some(CloudStorage.GCloud(PyStr(settings.gcloudProjectId), PyStr(settings.gcloudStorageBucketId)));
      }
    }

    /** The loop of initialize over the policy file, in file order. */
    method ApplyPolicyFile(ps: seq<Policy>)
      modifies this`schema, this`requiredFields
      ensures PolicyState(schema, requiredFields) == ApplyPolicies(old(PolicyState(schema, requiredFields)), ps)
    {
      ghost var start := PolicyState(schema, requiredFields);
      var i := 0;
      while i < |ps|
        invariant 0 <= i <= |ps|
        invariant PolicyState(schema, requiredFields) == ApplyPolicies(start, ps[..i])
      {
        var p := ps[i];
        ghost var before := PolicyState(schema, requiredFields);
        if p.key.Some? {
          var k := p.key.value;
          if p.required.Some? {
            requiredFields := Assign(requiredFields, k, p);
          }
          if p.dataType.Some? {
            schema := schema[ReplaceChar(k, '.', '_') := SchemaReducer.SchemaField(p.dataType.value, ForcedMode(p), true)];
          }
        }
        assert PolicyState(schema, requiredFields) == ApplyPolicy(before, p);
        assert ps[..i + 1][..i] == ps[..i];
        i := i + 1;
      }
      assert ps[..i] == ps;
    }

    /** Open the next part file, <data folder>/<part number>, and record its name. */
    method OpenPartFile(cfg: ExtractConfig, partNum: nat, parts: seq<seq<Json>>, rejects: seq<seq<Rejection>>)
      returns (partNum': nat, parts': seq<seq<Json>>)
      requires partNum == |parts|
      modifies this`extractFileNames
      ensures partNum' == |parts'|
      ensures State(parts', rejects) == OpenPart(cfg, old(State(parts, rejects)))
    {
      partNum' := partNum + 1;
      extractFileNames := extractFileNames + [PartFile(cfg, partNum')];
      parts' := parts + [[]];
    }

    /** Open the next reject file, <reject folder>/<reject part number>, and record its name. */
    method OpenRejectFile(cfg: ExtractConfig, rejectPartNum: nat, parts: seq<seq<Json>>, rejects: seq<seq<Rejection>>)
      returns (rejectPartNum': nat, rejects': seq<seq<Rejection>>)
      requires rejectPartNum == |rejects|
      modifies this`rejectFileNames
      ensures rejectPartNum' == |rejects'|
      ensures State(parts, rejects') == OpenReject(cfg, old(State(parts, rejects)))
    {
      rejectPartNum' := rejectPartNum + 1;
      rejectFileNames := rejectFileNames + [RejectFile(cfg, rejectPartNum')];
      rejects' := rejects + [[]];
    }

    /**
     * The accepted branch of extract_data's loop: count the document, then
     * write it to the open part file, which is unbound before the first
     * part is opened.
     */
    method WriteAccepted(partNum: nat, parts: seq<seq<Json>>, rejects: seq<seq<Rejection>>, doc: Json)
      returns (error: Option<string>, parts': seq<seq<Json>>)
      requires partNum == |parts|
      modifies this`numExtracted
      ensures |parts'| == |parts|
      ensures (State(parts', rejects), error) == AcceptDoc(old(State(parts, rejects)), doc)
    {
      numExtracted := numExtracted + 1;
      if partNum == 0 {
        return Some(UnboundPart), parts;
      }
      error, parts' := None, AppendLast(parts, doc);
    }

    /**
     * The rejected branch: open the next reject file on a boundary of the
     * rejected count, count the document, then write its reject line.
     */
    method WriteRejected(cfg: ExtractConfig, rejectPartNum: nat, parts: seq<seq<Json>>, rejects: seq<seq<Rejection>>,
                         line: Rejection)
      returns (error: Option<string>, rejectPartNum': nat, rejects': seq<seq<Rejection>>)
      requires rejectPartNum == |rejects|
      modifies this`numRejected, this`rejectFileNames
      ensures rejectPartNum' == |rejects'|
      ensures (State(parts, rejects'), error) == RejectDoc(cfg, old(State(parts, rejects)), line)
    {
      rejectPartNum', rejects' := rejectPartNum, rejects;
      if numRejected % cfg.partSize == 0 {
        rejectPartNum', rejects' := OpenRejectFile(cfg, rejectPartNum, parts, rejects);
      }
      numRejected := numRejected + 1;
      if rejectPartNum' == 0 {
        return Some(UnboundReject), rejectPartNum', rejects';
      }
      error, rejects' := None, AppendLast(rejects', line);
    }

    /**
     * Open the next part file on a boundary of the extracted count, then
     * reject the document for its missing field or write it.
     */
    method PlaceDocument(cfg: ExtractConfig, partNum: nat, rejectPartNum: nat, parts: seq<seq<Json>>,
                         rejects: seq<seq<Rejection>>, missing: Option<string>, doc: Json)
      returns (error: Option<string>, partNum': nat, rejectPartNum': nat, parts': seq<seq<Json>>, rejects': seq<seq<Rejection>>)
      requires partNum == |parts| && rejectPartNum == |rejects|
      modifies this`numExtracted, this`numRejected, this`extractFileNames, this`rejectFileNames
      ensures partNum' == |parts'| && rejectPartNum' == |rejects'|
      ensures (State(parts', rejects'), error) == Place(cfg, old(State(parts, rejects)), missing, doc)
    {
      partNum', rejectPartNum', parts', rejects' := partNum, rejectPartNum, parts, rejects;
      if numExtracted % cfg.partSize == 0 {
        partNum', parts' := OpenPartFile(cfg, partNum, parts, rejects);
      }
      if missing.Some? {
        error, rejectPartNum', rejects' := WriteRejected(cfg, rejectPartNum', parts', rejects', Rejection(missing.value, doc));
      } else {
        error, parts' := WriteAccepted(partNum', parts', rejects', doc);
      }
    }

    /**
     * One turn of extract_data's loop: read the sort field (a KeyError when
     * the document lacks it), track the bounds, run the policy check, then
     * place the document.
     */
    method ExtractDocument(cfg: ExtractConfig, partNum: nat, rejectPartNum: nat, parts: seq<seq<Json>>,
                           rejects: seq<seq<Rejection>>, data: seq<(string, Json)>)
      returns (error: Option<string>, partNum': nat, rejectPartNum': nat, parts': seq<seq<Json>>, rejects': seq<seq<Rejection>>)
      requires partNum == |parts| && rejectPartNum == |rejects| && cfg.required == requiredFields
      modifies this`numExtracted, this`numRejected, this`extractFileNames, this`rejectFileNames, this`sortMin, this`sortMax
      ensures partNum' == |parts'| && rejectPartNum' == |rejects'|
      ensures (State(parts', rejects'), error) == ExtractStep(cfg, old(State(parts, rejects)), data)
    {
      var value := Get(data, cfg.sortByField);
      if value.None? {
        return Some(KeyError(cfg.sortByField)), partNum, rejectPartNum, parts, rejects;
      }
      if sortMin == JNull {
        sortMin := value.value;
      }
      sortMax := value.value;
      assert State(parts, rejects) == Track(old(State(parts, rejects)), value.value);
      var missing := FindMissing(requiredFields, JObject(data));
      error, partNum', rejectPartNum', parts', rejects' :=
        PlaceDocument(cfg, partNum, rejectPartNum, parts, rejects, missing, JObject(data));
    }

    /**
     * extract_data: read the documents in sort order, track the sort-field
     * bounds, write the accepted ones to part files and the rejected ones
     * to reject files, opening a file on each boundary of the counts. The
     * file contents are returned; the error is the exception that ends the
     * loop.
     */
    method ExtractData(docs: seq<seq<(string, Json)>>)
      returns (error: Option<string>, parts: seq<seq<Json>>, rejects: seq<seq<Rejection>>)
      modifies this`numExtracted, this`numRejected, this`extractFileNames, this`rejectFileNames, this`sortMin, this`sortMax
      ensures (State(parts, rejects), error) == ExtractAll(Config(), old(State([], [])), docs)
    {
      var cfg := Config();
      var partNum, rejectPartNum := 0, 0;
      error, parts, rejects := None, [], [];
      ghost var start := State(parts, rejects);
      var i := 0;
      while i < |docs|
        invariant 0 <= i <= |docs|
        invariant cfg == Config() && cfg.required == requiredFields
        invariant partNum == |parts| && rejectPartNum == |rejects| && error.None?
        invariant ExtractAll(cfg, start, docs) == ExtractAll(cfg, State(parts, rejects), docs[i..])
      {
        ExtractAllFrom(cfg, State(parts, rejects), docs, i);
        error, partNum, rejectPartNum, parts, rejects :=
          ExtractDocument(cfg, partNum, rejectPartNum, parts, rejects, docs[i]);
        if error.Some? {
          return;
        }
        i := i + 1;
      }
      assert docs[i..] == [];
    }

    /**
     * load_table_hive: load a shard's transformed data into its table
     * (suffixed with the shard when each shard has its own table); returns
     * "<data import id>/<shard>".
     */
    method LoadTableHive(shard: Option<string>, table: string, differentTablePerShard: bool, dataImportId: Option<string>)
      returns (jobId: string)
      requires dw != null
      modifies dw
      ensures dw.log == old(dw.log) + [Warehouse.Executed(settings.dwDatabaseName,
                                         Warehouse.LoadData(LoadPath(settings.collectionName, shard),
                                                            FullTableName(table, shard, differentTablePerShard)))]
      ensures jobId == PyStr(dataImportId) + "/" + PyStr(shard)
    {
      var fullTableName;
      if differentTablePerShard {
        fullTableName := table + "_" + PyStr(shard);
      } else {
        fullTableName := table;
      }
      var cloudStoragePath := CloudStoragePath + "/" + settings.collectionName + "/data_transform/output/" + PyStr(shard) + "/";
      dw.LoadTable(settings.dwDatabaseName, fullTableName, cloudStoragePath);
      jobId := PyStr(dataImportId) + "/" + PyStr(shard);
    }

    /**
     * load_dw: create or update the warehouse table from the schema
     * collection's field records (met in the given order), then load each
     * fragment's data into its table, or the whole collection into the
     * base table when there are no fragments. The error is the exception
     * of create_table or update_table, which skips the loads.
     */
    method LoadDw(order: seq<string>) returns (error: Option<string>)
      requires dw != null
      requires forall k :: k in schema <==> k in order
      modifies this`dwTableNames, dw
      ensures var run := TablesRun(dw.tables, dw.describe, settings.dwDatabaseName, settings.dwTableName,
                                   SchemaFields(schema, order), settings.writeDisposition == Overwrite);
              && error == (if run.0.Err? then Some(run.0.error) else None)
              && dwTableNames == (if run.0.Ok? then run.0.value else old(dwTableNames))
              && dw.log == old(dw.log) + run.1 +
                           (if run.0.Ok? then Warehouse.OnDatabase(settings.dwDatabaseName,
                                                LoadStatements(settings.collectionName, settings.dwTableName, fragments))
                            else [])
    {
      var names := CreateTables(SchemaFields(schema, order));
      if names.Err? {
        return Some(names.error);
      }
      dwTableNames := names.value;
      LoadFragments();
      error := None;
    }

    /** The table part of load_dw: drop and create with overwrite; otherwise update an existing table or create it. */
    method CreateTables(fields: seq<Warehouse.SchemaField>) returns (names: Result<seq<string>>)
      requires dw != null
      modifies dw
      ensures var run := TablesRun(dw.tables, dw.describe, settings.dwDatabaseName, settings.dwTableName, fields, settings.writeDisposition == Overwrite);
              names == run.0 && dw.log == old(dw.log) + run.1
    {
      if settings.writeDisposition == Overwrite {
        names := ReplaceTable(dw, settings.dwDatabaseName, settings.dwTableName, fields);
      } else {
        names := AppendTable(dw, settings.dwDatabaseName, settings.dwTableName, fields);
      }
    }

    /** The load part of load_dw: one load per fragment, or one of the base table with shard None. */
    method LoadFragments()
      requires dw != null
      modifies dw
      ensures dw.log == old(dw.log) + Warehouse.OnDatabase(settings.dwDatabaseName,
                                        LoadStatements(settings.collectionName, settings.dwTableName, fragments))
    {
      var db, base := settings.dwDatabaseName, settings.dwTableName;
      ghost var loads := LoadStatements(settings.collectionName, base, fragments);
      if fragments.None? || |fragments.value| == 0 {
        var _ := LoadTableHive(None, base, false, None);
        return;
      }
      var fragmentValues := fragments.value;
      var i := 0;
      while i < |fragmentValues|
        invariant 0 <= i <= |fragmentValues|
        invariant dw.log == old(dw.log) + Warehouse.OnDatabase(db, loads[..i])
      {
        var fragmentValue := fragmentValues[i];
        var tableName;
        if fragmentValue == "root" {
          tableName := base;
        } else {
          tableName := base + "_" + fragmentValue;
        }
        var _ := LoadTableHive(Some(fragmentValue), tableName, false, None);
        assert loads[..i + 1] == loads[..i] + [loads[i]];
        Warehouse.OnDatabaseConcat(db, loads[..i], [loads[i]]);
        i := i + 1;
      }
      assert loads[..i] == loads;
    }
  }
}
