/**
 * The schema-generation reducer (json/generate-schema-reducer.py).
 *
 * The mapper emits "key<TAB>type-mode" lines; after sorting, the reducer
 * folds the type-modes of each key with a widening join and merges the
 * result into the stored schema, where an entry marked `forced` (set by a
 * data policy) is never changed.
 */
module SchemaReducer {
  import opened Text

  // ---------------------------------------------------------------------------
  // "type-mode" strings
  // ---------------------------------------------------------------------------

  /**
   * parse_datatype_mode: the first two '-'-separated fields; a string with
   * fewer than two fields raises ValueError.
   */
  function ParseDatatypeMode(dm: string): (r: Result<(string, string)>)
    ensures r.Ok? <==> '-' in dm
    ensures r.Err? ==> r.error == "ValueError: Invalid datatype / mode tuple " + dm
    ensures r.Ok? ==> '-' !in r.value.0 && '-' !in r.value.1
    ensures r.Ok? ==> StartsWith(dm, r.value.0 + "-" + r.value.1)
    ensures r.Ok? ==> var n := |r.value.0| + 1 + |r.value.1|; n == |dm| || dm[n] == '-'
  {
    var a := Split(dm, '-');
    SplitFirst(dm, '-');
    if |a| >= 2 then SplitFields(dm, '-'); Ok((a[0], a[1]))
    else Err("ValueError: Invalid datatype / mode tuple " + dm)
  }

  /** The first two pieces of a split sit at the front of the string, separated by sep. */
  lemma SplitFields(s: string, sep: char)
    requires sep in s
    ensures |Split(s, sep)| >= 2
    ensures var a := Split(s, sep);
      var n := |a[0]| + 1 + |a[1]|;
      StartsWith(s, a[0] + [sep] + a[1]) && (n == |s| || s[n] == sep)
  {
    var i := IndexOf(s, sep);
    var rest := s[i + 1..];
    SplitFirst(rest, sep);
    var a := Split(s, sep);
    assert a[0] == s[..i] && a[1] == Split(rest, sep)[0];
    TwoFields(s, i, sep, a[1]);
  }

  /** A separator at i followed by a piece that runs to the next separator or the end. */
  lemma TwoFields(s: string, i: nat, sep: char, a1: string)
    requires i < |s| && s[i] == sep
    requires a1 == (var rest := s[i + 1..]; if sep in rest then rest[..IndexOf(rest, sep)] else rest)
    ensures var n := i + 1 + |a1|;
      StartsWith(s, s[..i] + [sep] + a1) && (n == |s| || s[n] == sep)
  {
    var rest := s[i + 1..];
    var n := i + 1 + |a1|;
    assert s[..n] == s[..i] + [sep] + rest[..|a1|];
    assert n < |s| ==> s[n] == rest[|a1|];
  }

  /** The first piece of a split is everything before the first separator. */
  lemma SplitFirst(t: string, sep: char)
    ensures Split(t, sep)[0] == if sep in t then t[..IndexOf(t, sep)] else t
    ensures sep in t ==> |Split(t, sep)| >= 2
  {
  }

  /** Storing a (type, mode) pair as "type-mode" and parsing it back gives the pair. */
  lemma ParseRoundTrip(datatype_: string, mode: string)
    requires '-' !in datatype_ && '-' !in mode
    ensures ParseDatatypeMode(datatype_ + "-" + mode) == Ok((datatype_, mode))
  {
    SplitJoin([datatype_, mode], '-');
    assert Join([datatype_, mode], '-') == datatype_ + "-" + mode;
  }

  /**
   * max_datatype_mode: the widening join of two type-modes. Repeated records
   * win over everything, then repeated strings, then "repeated-nullable",
   * records, strings; integer and float give float; anything else that
   * differs gives string.
   */
  function MaxDatatypeMode(a: string, b: string): string
  {
    if a == b then a
    else if a == "record-repeated" || b == "record-repeated" then "record-repeated"
    else if a == "string-repeated" || b == "string-repeated" then "string-repeated"
    else if a == "repeated-nullable" || b == "repeated-nullable" then "repeated-nullable"
    else if a == "record-nullable" || b == "record-nullable" then "record-nullable"
    else if a == "string-nullable" || b == "string-nullable" then "string-nullable"
    else if a == "float-nullable" && b == "integer-nullable" then "float-nullable"
    else if a == "integer-nullable" && b == "float-nullable" then "float-nullable"
    else "string-nullable"
  }

  /** `a` is at most `b` in the widening order: joining `a` into `b` leaves `b`. */
  predicate Widens(a: string, b: string)
  {
    MaxDatatypeMode(a, b) == b
  }

  lemma MaxIdempotent(x: string)
    ensures MaxDatatypeMode(x, x) == x
  {
  }

  lemma MaxCommutative(a: string, b: string)
    ensures MaxDatatypeMode(a, b) == MaxDatatypeMode(b, a)
  {
  }

  /** The precedence of the special type-modes, for two different inputs. */
  lemma MaxPrecedence(a: string, b: string)
    requires a != b
    ensures (a == "record-repeated" || b == "record-repeated") ==> MaxDatatypeMode(a, b) == "record-repeated"
    ensures (a != "record-repeated" && b != "record-repeated" && (a == "string-repeated" || b == "string-repeated"))
      ==> MaxDatatypeMode(a, b) == "string-repeated"
    ensures (a != "record-repeated" && b != "record-repeated" && a != "string-repeated" && b != "string-repeated"
      && (a == "repeated-nullable" || b == "repeated-nullable")) ==> MaxDatatypeMode(a, b) == "repeated-nullable"
    ensures (a != "record-repeated" && b != "record-repeated" && a != "string-repeated" && b != "string-repeated"
      && a != "repeated-nullable" && b != "repeated-nullable"
      && (a == "record-nullable" || b == "record-nullable")) ==> MaxDatatypeMode(a, b) == "record-nullable"
    ensures (a != "record-repeated" && b != "record-repeated" && a != "string-repeated" && b != "string-repeated"
      && a != "repeated-nullable" && b != "repeated-nullable" && a != "record-nullable" && b != "record-nullable"
      && (a == "string-nullable" || b == "string-nullable")) ==> MaxDatatypeMode(a, b) == "string-nullable"
  {
  }

  /** Integer and float widen to float in either order; any other pair outside the ranked ones gives string. */
  lemma MaxNumeric(a: string, b: string)
    ensures MaxDatatypeMode("float-nullable", "integer-nullable") == "float-nullable"
    ensures MaxDatatypeMode("integer-nullable", "float-nullable") == "float-nullable"
    ensures (a != b && !IsRanked(a) && !IsRanked(b) && {a, b} != {"float-nullable", "integer-nullable"})
      ==> MaxDatatypeMode(a, b) == "string-nullable"
  {
  }

  predicate IsRanked(x: string)
  {
    Rank(x) >= 3
  }

  /** Position of a type-mode in the widening order; 0 for every type-mode outside it. */
  function Rank(x: string): nat
  {
    if x == "record-repeated" then 7
    else if x == "string-repeated" then 6
    else if x == "repeated-nullable" then 5
    else if x == "record-nullable" then 4
    else if x == "string-nullable" then 3
    else if x == "float-nullable" then 2
    else if x == "integer-nullable" then 1
    else 0
  }

  /**
   * The join by rank: the higher of two different type-modes when either is
   * ranked from "string-nullable" up, float for integer and float, and
   * string for any other pair of different type-modes.
   */
  lemma RankOfMax(a: string, b: string)
    ensures var m := MaxDatatypeMode(a, b);
      if a == b then m == a
      else if Rank(a) >= 3 || Rank(b) >= 3 then (if Rank(a) >= Rank(b) then m == a else m == b)
      else if Rank(a) >= 1 && Rank(b) >= 1 then m == "float-nullable"
      else m == "string-nullable"
  {
    if a != b && Rank(a) < 3 && Rank(b) < 3 {
      assert a != "record-repeated" && a != "string-repeated" && a != "repeated-nullable" && a != "record-nullable";
      assert b != "record-repeated" && b != "string-repeated" && b != "repeated-nullable" && b != "record-nullable";
    }
  }

  /** The join only ever answers one of its inputs or "string-nullable". */
  lemma MaxIsAnInputOrString(a: string, b: string)
    ensures MaxDatatypeMode(a, b) in {a, b, "string-nullable"}
  {
  }

  /** The join is associative, so with commutativity and idempotence it is a semilattice join. */
  lemma {:induction false} MaxAssociative(a: string, b: string, c: string)
    ensures MaxDatatypeMode(MaxDatatypeMode(a, b), c) == MaxDatatypeMode(a, MaxDatatypeMode(b, c))
  {
    RankOfMax(a, b);
    RankOfMax(b, c);
    RankOfMax(MaxDatatypeMode(a, b), c);
    RankOfMax(a, MaxDatatypeMode(b, c));
    assert Rank("float-nullable") == 2;
    assert Rank("string-nullable") == 3;
  }

  lemma WidensReflexive(a: string)
    ensures Widens(a, a)
  {
  }

  lemma WidensTransitive(a: string, b: string, c: string)
    requires Widens(a, b) && Widens(b, c)
    ensures Widens(a, c)
  {
    MaxAssociative(a, b, c);
  }

  /** Both inputs are at most their join. */
  lemma {:induction false} JoinIsUpperBound(a: string, b: string)
    ensures Widens(a, MaxDatatypeMode(a, b)) && Widens(b, MaxDatatypeMode(a, b))
  {
    MaxAssociative(a, a, b);
    MaxAssociative(a, b, b);
  }

  /** Two different type-modes always join to one of the named type-modes. */
  lemma MaxOfDifferent(a: string, b: string)
    requires a != b
    ensures MaxDatatypeMode(a, b) in
      {"record-repeated", "string-repeated", "repeated-nullable", "record-nullable", "string-nullable", "float-nullable"}
  {
  }

  /** A join that starts from a string with a '-' still has one, so parsing it never fails. */
  lemma MaxKeepsDash(a: string, b: string)
    requires '-' in a
    ensures '-' in MaxDatatypeMode(a, b)
  {
    if a != b {
      MaxOfDifferent(a, b);
      assert "record-repeated"[6] == '-' && "string-repeated"[6] == '-' && "repeated-nullable"[8] == '-';
      assert "record-nullable"[6] == '-' && "string-nullable"[6] == '-' && "float-nullable"[5] == '-';
    }
  }

  /** The left fold of the join over one key's values, as the reducer's loop computes it. */
  function FoldMax(values: seq<string>): string
    requires |values| >= 1
  {
    if |values| == 1 then values[0]
    else MaxDatatypeMode(FoldMax(values[..|values| - 1]), values[|values| - 1])
  }

  /** Every value of a key is at most the folded type-mode the reducer stores for it. */
  lemma {:induction false} FoldMaxIsUpperBound(values: seq<string>)
    requires |values| >= 1
    ensures forall i :: 0 <= i < |values| ==> Widens(values[i], FoldMax(values))
  {
    if |values| > 1 {
      var init := values[..|values| - 1];
      var last := values[|values| - 1];
      FoldMaxIsUpperBound(init);
      JoinIsUpperBound(FoldMax(init), last);
      forall i | 0 <= i < |values|
        ensures Widens(values[i], FoldMax(values))
      {
        if i < |values| - 1 {
          assert values[i] == init[i];
          WidensTransitive(values[i], FoldMax(init), FoldMax(values));
        }
      }
    }
  }

  // ---------------------------------------------------------------------------
  // The stored schema and process_new_field
  // ---------------------------------------------------------------------------

  /** One schema record {"key", "type": "field", "data_type", "mode", "forced"?}. */
  datatype SchemaField = SchemaField(dataType: string, mode: string, forced: bool)

  /** The schema collection: field records by key. */
  type Schema = map<string, SchemaField>

  /** The stored record read back as "data_type-mode". */
  function StoredMode(f: SchemaField): string
  {
    f.dataType + "-" + f.mode
  }

  /**
   * process_new_field on the schema collection: nothing for a missing key
   * or type; insert a new key; leave a forced entry alone; otherwise widen
   * the stored type-mode with the new one.
   */
  function NewField(schema: Schema, key: Option<string>, dm: Option<string>): Result<Schema>
  {
    if key.None? || dm.None? then Ok(schema)
    else
      var k := key.value;
      if k in schema then
        var orig := schema[k];
        if orig.forced then Ok(schema)
        else
          match ParseDatatypeMode(MaxDatatypeMode(StoredMode(orig), dm.value))
          case Err(e) => Err(e)
          case Ok(p) => Ok(schema[k := SchemaField(p.0, p.1, orig.forced)])
      else
        match ParseDatatypeMode(dm.value)
        case Err(e) => Err(e)
        case Ok(p) => Ok(schema[k := SchemaField(p.0, p.1, false)])
  }

  lemma StoredModeHasDash(f: SchemaField)
    ensures '-' in StoredMode(f)
  {
    assert StoredMode(f)[|f.dataType|] == '-';
  }

  /** A None key or type changes nothing. */
  lemma NewFieldIgnoresNone(schema: Schema, key: Option<string>, dm: Option<string>)
    requires key.None? || dm.None?
    ensures NewField(schema, key, dm) == Ok(schema)
  {
  }

  /**
   * A key not yet in the schema is inserted with the parsed type and mode,
   * and the call fails, with parse_datatype_mode's error, exactly when the
   * type-mode has no '-'.
   */
  lemma NewFieldInserts(schema: Schema, k: string, dm: string)
    requires k !in schema
    ensures var r := NewField(schema, Some(k), Some(dm));
      (r.Ok? <==> '-' in dm)
      && (r.Err? ==> r.error == "ValueError: Invalid datatype / mode tuple " + dm)
      && (r.Ok? ==> var p := ParseDatatypeMode(dm).value;
                    r.value == schema[k := SchemaField(p.0, p.1, false)] && '-' !in p.0 && '-' !in p.1)
  {
  }

  /** A forced entry is never changed. */
  lemma NewFieldKeepsForced(schema: Schema, k: string, dm: Option<string>)
    requires k in schema && schema[k].forced
    ensures NewField(schema, Some(k), dm) == Ok(schema)
  {
  }

  /**
   * An entry that is not forced is replaced by the join of its stored
   * type-mode and the new one, which is at least both; this never fails,
   * and no other entry changes.
   */
  lemma NewFieldWidens(schema: Schema, k: string, dm: string)
    requires k in schema && !schema[k].forced
    ensures var r := NewField(schema, Some(k), Some(dm));
      var joined := MaxDatatypeMode(StoredMode(schema[k]), dm);
      var p := ParseDatatypeMode(joined);
      r.Ok? && p.Ok? && r.value.Keys == schema.Keys
      && r.value[k] == SchemaField(p.value.0, p.value.1, false)
      && Widens(StoredMode(schema[k]), joined) && Widens(dm, joined)
      && forall k' :: k' in schema && k' != k ==> r.value[k'] == schema[k']
  {
    StoredModeHasDash(schema[k]);
    MaxKeepsDash(StoredMode(schema[k]), dm);
    JoinIsUpperBound(StoredMode(schema[k]), dm);
  }

  /** A successful call adds at most its own key and touches no other entry. */
  lemma NewFieldFrame(schema: Schema, key: Option<string>, dm: Option<string>)
    requires NewField(schema, key, dm).Ok?
    ensures var s := NewField(schema, key, dm).value;
      s.Keys == schema.Keys + (if key.Some? && dm.Some? then {key.value} else {})
      && forall k :: k in schema && (key.None? || k != key.value) ==> s[k] == schema[k]
  {
  }

  // ---------------------------------------------------------------------------
  // The reducer's input and its grouping
  // ---------------------------------------------------------------------------

  /** `(key, datatype_mode) = line.strip().split('\t', 1)`: None when the unpack fails. */
  function ParseLine(line: string): Option<(string, string)>
  {
    var parts := SplitOnce(Strip(line), '\t');
    if |parts| == 2 then Some((parts[0], parts[1])) else None
  }

  /** A line unpacks exactly when its stripped text holds a tab; the key is what precedes the first tab. */
  lemma ParseLineSplitsAtFirstTab(line: string)
    ensures ParseLine(line).Some? <==> '\t' in Strip(line)
    ensures ParseLine(line).Some? ==>
      var p := ParseLine(line).value;
      '\t' !in p.0 && Strip(line) == p.0 + "\t" + p.1
  {
  }

  /**
   * The runs of equal consecutive keys, each with the left fold of its
   * type-modes: what the reducer's current_key / current_datatype_mode
   * pair accumulates.
   */
  function Groups(pairs: seq<(string, string)>): (gs: seq<(string, string)>)
    ensures |gs| <= |pairs|
    ensures pairs == [] <==> gs == []
    ensures pairs != [] ==> gs[|gs| - 1].0 == pairs[|pairs| - 1].0
  {
    if pairs == [] then [] else Regroup(Groups(pairs[..|pairs| - 1]), pairs[|pairs| - 1])
  }

  /** One more pair: it widens the last group when it has the same key, and starts a new group otherwise. */
  function Regroup(gs: seq<(string, string)>, p: (string, string)): seq<(string, string)>
  {
    if gs != [] && gs[|gs| - 1].0 == p.0 then gs[..|gs| - 1] + [(p.0, MaxDatatypeMode(gs[|gs| - 1].1, p.1))]
    else gs + [p]
  }

  /** The groups whose key is not empty (`if current_key:` skips the empty key). */
  function NonEmptyKeys(gs: seq<(string, string)>): (r: seq<(string, string)>)
    ensures |r| <= |gs|
  {
    if gs == [] then []
    else if gs[|gs| - 1].0 == "" then NonEmptyKeys(gs[..|gs| - 1])
    else NonEmptyKeys(gs[..|gs| - 1]) + [gs[|gs| - 1]]
  }

  /**
   * The calls process_new_field receives, in order: each finished group
   * with a non-empty key, when the next key starts, and the last group at
   * the end whatever its key.
   */
  function Flushed(gs: seq<(string, string)>): seq<(string, string)>
  {
    if gs == [] then [] else NonEmptyKeys(Finished(gs)) + [gs[|gs| - 1]]
  }

  /** The groups already closed by a later key: all but the one being accumulated. */
  function Finished(gs: seq<(string, string)>): seq<(string, string)>
  {
    if gs == [] then [] else gs[..|gs| - 1]
  }

  /** The schema after a run of process_new_field calls, and the error that stopped it, if any. */
  datatype Run = Run(schema: Schema, failure: Option<string>)

  /**
   * One write of a finished group into the collection. The loop is stated
   * for any write; the reducer's own is WriteGroup.
   */
  type Write = (Schema, string, string) -> Result<Schema>

  /** process_new_field(key, type-mode), as the loop calls it: both are present. */
  function WriteGroup(schema: Schema, key: string, dm: string): Result<Schema>
  {
    NewField(schema, Some(key), Some(dm))
  }

  /** The writes of a list of groups, in order, up to the first one that fails. */
  function ApplyAll(write: Write, schema: Schema, calls: seq<(string, string)>): Run
  {
    if calls == [] then Run(schema, None)
    else
      var prev := ApplyAll(write, schema, calls[..|calls| - 1]);
      if prev.failure.Some? then prev
      else
        var c := calls[|calls| - 1];
        match write(prev.schema, c.0, c.1)
        case Ok(s) => Run(s, None)
        case Err(e) => Run(prev.schema, Some(e))
  }

  // ---------------------------------------------------------------------------
  // Properties of the grouping
  // ---------------------------------------------------------------------------

  /** Equal keys are contiguous (what Hadoop's sort guarantees). */
  predicate Grouped(pairs: seq<(string, string)>)
  {
    forall i, j, k :: 0 <= i < j < k < |pairs| && pairs[i].0 == pairs[k].0 ==> pairs[j].0 == pairs[i].0
  }

  /** The type-modes given for key k, in input order. */
  function ValuesOf(pairs: seq<(string, string)>, k: string): (vs: seq<string>)
    ensures |vs| <= |pairs|
  {
    if pairs == [] then []
    else
      var rest := ValuesOf(pairs[..|pairs| - 1], k);
      if pairs[|pairs| - 1].0 == k then rest + [pairs[|pairs| - 1].1] else rest
  }

  lemma {:induction false} ValuesOfAbsent(pairs: seq<(string, string)>, k: string)
    requires k !in Keys(pairs)
    ensures ValuesOf(pairs, k) == []
  {
    if pairs != [] {
      KeysSnoc(pairs);
      ValuesOfAbsent(pairs[..|pairs| - 1], k);
    }
  }

  /** The keys occurring in a list of (key, type-mode) pairs. */
  function Keys(pairs: seq<(string, string)>): set<string>
  {
    set i | 0 <= i < |pairs| :: pairs[i].0
  }

  predicate DistinctKeys(gs: seq<(string, string)>)
  {
    forall i, j :: 0 <= i < j < |gs| ==> gs[i].0 != gs[j].0
  }

  lemma KeysSnoc(pairs: seq<(string, string)>)
    requires pairs != []
    ensures Keys(pairs) == Keys(pairs[..|pairs| - 1]) + {pairs[|pairs| - 1].0}
  {
    var init := pairs[..|pairs| - 1];
    forall x | x in Keys(pairs) ensures x in Keys(init) + {pairs[|pairs| - 1].0} {
      var i :| 0 <= i < |pairs| && pairs[i].0 == x;
      if i < |init| { assert init[i].0 == x; }
    }
    forall x | x in Keys(init) ensures x in Keys(pairs) {
      var i :| 0 <= i < |init| && init[i].0 == x;
      assert pairs[i].0 == x;
    }
  }

  /** Groups keep exactly the keys of the input, grouped or not. */
  lemma {:induction false} GroupKeysAreKeys(pairs: seq<(string, string)>)
    ensures Keys(Groups(pairs)) == Keys(pairs)
  {
    if pairs != [] {
      var init := pairs[..|pairs| - 1];
      var p := pairs[|pairs| - 1];
      GroupKeysAreKeys(init);
      KeysSnoc(pairs);
      var gs0 := Groups(init);
      var gs := Groups(pairs);
      KeysSnoc(gs);
      if gs0 != [] && gs0[|gs0| - 1].0 == p.0 {
        KeysSnoc(gs0);
        assert gs[..|gs| - 1] == gs0[..|gs0| - 1];
      } else {
        assert gs[..|gs| - 1] == gs0;
      }
    }
  }

  /** In grouped input, a key that differs from the one before it has not been seen before. */
  lemma GroupedFreshKey(pairs: seq<(string, string)>)
    requires Grouped(pairs) && |pairs| >= 2
    requires pairs[|pairs| - 2].0 != pairs[|pairs| - 1].0
    ensures pairs[|pairs| - 1].0 !in Keys(pairs[..|pairs| - 1])
  {
    var init := pairs[..|pairs| - 1];
    forall i | 0 <= i < |init| ensures init[i].0 != pairs[|pairs| - 1].0 {
      if i < |pairs| - 2 {
        GroupedAt(pairs, i, |pairs| - 2, |pairs| - 1);
      }
    }
  }

  lemma GroupedAt(pairs: seq<(string, string)>, i: nat, j: nat, k: nat)
    requires Grouped(pairs) && i < j < k < |pairs|
    ensures pairs[i].0 == pairs[k].0 ==> pairs[j].0 == pairs[i].0
  {
  }

  lemma GroupedPrefix(pairs: seq<(string, string)>, n: nat)
    requires Grouped(pairs) && n <= |pairs|
    ensures Grouped(pairs[..n])
  {
    var q := pairs[..n];
    forall i, j, k | 0 <= i < j < k < |q| && q[i].0 == q[k].0 ensures q[j].0 == q[i].0 {
      assert pairs[i] == q[i] && pairs[j] == q[j] && pairs[k] == q[k];
    }
  }

  /**
   * In grouped input, a pair either continues the last group or brings a
   * key no earlier pair had.
   */
  lemma GroupedNext(pairs: seq<(string, string)>)
    requires Grouped(pairs) && pairs != []
    ensures var gs0 := Groups(pairs[..|pairs| - 1]);
      var p := pairs[|pairs| - 1];
      (gs0 != [] && gs0[|gs0| - 1].0 == p.0) || p.0 !in Keys(pairs[..|pairs| - 1])
  {
    var init := pairs[..|pairs| - 1];
    var p := pairs[|pairs| - 1];
    if init != [] {
      assert Groups(init)[|Groups(init)| - 1].0 == pairs[|pairs| - 2].0;
      if pairs[|pairs| - 2].0 != p.0 {
        GroupedFreshKey(pairs);
      }
    }
  }

  /** On key-grouped input every key forms exactly one group. */
  lemma {:induction false} GroupsDistinct(pairs: seq<(string, string)>)
    requires Grouped(pairs)
    ensures DistinctKeys(Groups(pairs))
  {
    if pairs != [] {
      var init := pairs[..|pairs| - 1];
      var p := pairs[|pairs| - 1];
      GroupedPrefix(pairs, |pairs| - 1);
      GroupsDistinct(init);
      GroupedNext(pairs);
      var gs0 := Groups(init);
      var gs := Groups(pairs);
      DistinctSnoc(gs);
      if gs0 != [] && gs0[|gs0| - 1].0 == p.0 {
        DistinctSnoc(gs0);
        assert gs[..|gs| - 1] == gs0[..|gs0| - 1];
      } else {
        GroupKeysAreKeys(init);
        assert gs[..|gs| - 1] == gs0;
      }
    }
  }

  lemma DistinctSnoc(gs: seq<(string, string)>)
    requires gs != []
    ensures DistinctKeys(gs) <==> DistinctKeys(gs[..|gs| - 1]) && gs[|gs| - 1].0 !in Keys(gs[..|gs| - 1])
  {
    var init := gs[..|gs| - 1];
    if DistinctKeys(gs) {
      assert DistinctKeys(init) by {
        forall i, j | 0 <= i < j < |init| ensures init[i].0 != init[j].0 {
          assert init[i] == gs[i] && init[j] == gs[j];
        }
      }
      forall i | 0 <= i < |init| ensures init[i].0 != gs[|gs| - 1].0 {
        assert gs[i] == init[i];
      }
    }
    if DistinctKeys(init) && gs[|gs| - 1].0 !in Keys(init) {
      forall i, j | 0 <= i < j < |gs| ensures gs[i].0 != gs[j].0 {
        assert gs[i] == init[i];
        if j < |init| {
          assert gs[j] == init[j];
        } else {
          assert init[i].0 in Keys(init);
        }
      }
    }
  }

  /** The group g carries the left fold of the join over all of its key's type-modes. */
  predicate Folded(pairs: seq<(string, string)>, g: (string, string))
  {
    |ValuesOf(pairs, g.0)| >= 1 && g.1 == FoldMax(ValuesOf(pairs, g.0))
  }

  /**
   * On key-grouped input every group carries the left fold of the join over
   * all of that key's values.
   */
  lemma {:induction false} GroupFold(pairs: seq<(string, string)>, i: nat)
    requires Grouped(pairs) && i < |Groups(pairs)|
    ensures Folded(pairs, Groups(pairs)[i])
    decreases |pairs|
  {
    var init := pairs[..|pairs| - 1];
    GroupedPrefix(pairs, |pairs| - 1);
    var gs0 := Groups(init);
    forall j | 0 <= j < |gs0| ensures Folded(init, gs0[j]) {
      GroupFold(init, j);
    }
    GroupFoldStep(pairs, gs0, i);
  }

  /** One more pair keeps every group folded, given that the groups before it were. */
  lemma GroupFoldStep(pairs: seq<(string, string)>, gs0: seq<(string, string)>, i: nat)
    requires Grouped(pairs) && pairs != [] && gs0 == Groups(pairs[..|pairs| - 1])
    requires forall j :: 0 <= j < |gs0| ==> Folded(pairs[..|pairs| - 1], gs0[j])
    requires i < |Groups(pairs)|
    ensures Folded(pairs, Groups(pairs)[i])
  {
    var init := pairs[..|pairs| - 1];
    var p := pairs[|pairs| - 1];
    GroupedPrefix(pairs, |pairs| - 1);
    GroupedNext(pairs);
    var gs := Groups(pairs);
    if gs0 != [] && gs0[|gs0| - 1].0 == p.0 {
      if i < |gs0| - 1 {
        GroupsDistinct(init);
        FoldOfOtherGroup(pairs, gs0, gs, i);
      } else {
        FoldOfLastGroup(pairs, gs0, gs);
      }
    } else if i < |gs0| {
      GroupKeysAreKeys(init);
      FoldOfEarlierGroup(pairs, gs0, gs, i);
    } else {
      FoldOfNewGroup(pairs, gs0, gs);
    }
  }

  /** An earlier group of the merged case: its key is not the new pair's, so its values do not change. */
  lemma FoldOfOtherGroup(pairs: seq<(string, string)>, gs0: seq<(string, string)>, gs: seq<(string, string)>, i: nat)
    requires pairs != [] && gs0 != [] && gs0[|gs0| - 1].0 == pairs[|pairs| - 1].0
    requires gs == gs0[..|gs0| - 1] + [(pairs[|pairs| - 1].0, MaxDatatypeMode(gs0[|gs0| - 1].1, pairs[|pairs| - 1].1))]
    requires DistinctKeys(gs0) && i < |gs0| - 1
    requires Folded(pairs[..|pairs| - 1], gs0[i])
    ensures Folded(pairs, gs[i])
  {
    assert gs0[i].0 != gs0[|gs0| - 1].0;
  }

  /** The last group of the merged case gains the new type-mode, folded in last. */
  lemma FoldOfLastGroup(pairs: seq<(string, string)>, gs0: seq<(string, string)>, gs: seq<(string, string)>)
    requires pairs != [] && gs0 != [] && gs0[|gs0| - 1].0 == pairs[|pairs| - 1].0
    requires gs == gs0[..|gs0| - 1] + [(pairs[|pairs| - 1].0, MaxDatatypeMode(gs0[|gs0| - 1].1, pairs[|pairs| - 1].1))]
    requires Folded(pairs[..|pairs| - 1], gs0[|gs0| - 1])
    ensures Folded(pairs, gs[|gs| - 1])
  {
    var init := pairs[..|pairs| - 1];
    var p := pairs[|pairs| - 1];
    var vs := ValuesOf(pairs, p.0);
    assert vs[..|vs| - 1] == ValuesOf(init, p.0);
  }

  /** A group before a new key's group keeps its values. */
  lemma FoldOfEarlierGroup(pairs: seq<(string, string)>, gs0: seq<(string, string)>, gs: seq<(string, string)>, i: nat)
    requires pairs != [] && pairs[|pairs| - 1].0 !in Keys(gs0)
    requires gs == gs0 + [pairs[|pairs| - 1]]
    requires i < |gs0| && Folded(pairs[..|pairs| - 1], gs0[i])
    ensures Folded(pairs, gs[i])
  {
    assert gs0[i].0 in Keys(gs0);
  }

  /** A new key's group holds just the new type-mode. */
  lemma FoldOfNewGroup(pairs: seq<(string, string)>, gs0: seq<(string, string)>, gs: seq<(string, string)>)
    requires pairs != [] && pairs[|pairs| - 1].0 !in Keys(pairs[..|pairs| - 1])
    requires gs == gs0 + [pairs[|pairs| - 1]]
    ensures Folded(pairs, gs[|gs0|])
  {
    var p := pairs[|pairs| - 1];
    ValuesOfAbsent(pairs[..|pairs| - 1], p.0);
    assert ValuesOf(pairs, p.0) == [p.1];
  }

  /**
   * On key-grouped input, every key forms exactly one group, and the group
   * carries the left fold of the join over all of that key's values.
   */
  lemma GroupsOfGroupedInput(pairs: seq<(string, string)>)
    requires Grouped(pairs)
    ensures DistinctKeys(Groups(pairs)) && Keys(Groups(pairs)) == Keys(pairs)
    ensures forall g :: g in Groups(pairs) ==> Folded(pairs, g)
  {
    GroupsDistinct(pairs);
    GroupKeysAreKeys(pairs);
    var gs := Groups(pairs);
    forall g | g in gs ensures Folded(pairs, g) {
      var i :| 0 <= i < |gs| && gs[i] == g;
      GroupFold(pairs, i);
    }
  }

  /** Dropping the empty key keeps distinct keys distinct and removes only that key. */
  lemma {:induction false} NonEmptyKeysDistinct(gs: seq<(string, string)>)
    requires DistinctKeys(gs)
    ensures DistinctKeys(NonEmptyKeys(gs))
    ensures Keys(NonEmptyKeys(gs)) == Keys(gs) - {""}
  {
    if gs != [] {
      var init := gs[..|gs| - 1];
      var last := gs[|gs| - 1];
      DistinctSnoc(gs);
      KeysSnoc(gs);
      NonEmptyKeysDistinct(init);
      if last.0 != "" {
        var r := NonEmptyKeys(gs);
        assert r[..|r| - 1] == NonEmptyKeys(init);
        DistinctSnoc(r);
        KeysSnoc(r);
      }
    }
  }

  /**
   * On key-grouped input the flushed calls have distinct keys: every
   * non-empty key, and the last key even when it is empty.
   */
  lemma FlushedKeys(pairs: seq<(string, string)>)
    requires Grouped(pairs)
    ensures DistinctKeys(Flushed(Groups(pairs)))
    ensures Keys(pairs) - {""} <= Keys(Flushed(Groups(pairs))) <= Keys(pairs)
  {
    var gs := Groups(pairs);
    GroupsDistinct(pairs);
    GroupKeysAreKeys(pairs);
    if gs != [] {
      var init := gs[..|gs| - 1];
      var calls := Flushed(gs);
      DistinctSnoc(gs);
      KeysSnoc(gs);
      NonEmptyKeysDistinct(init);
      assert calls[..|calls| - 1] == NonEmptyKeys(init);
      DistinctSnoc(calls);
      KeysSnoc(calls);
    }
  }

  /** Every group NonEmptyKeys keeps is one of its input's groups. */
  lemma {:induction false} NonEmptyKeysIn(gs: seq<(string, string)>)
    ensures forall g :: g in NonEmptyKeys(gs) ==> g in gs
  {
    if gs != [] {
      var init := gs[..|gs| - 1];
      NonEmptyKeysIn(init);
      assert forall g :: g in init ==> g in gs;
    }
  }

  /** Every flushed call is one of the groups. */
  lemma FlushedIn(gs: seq<(string, string)>)
    ensures forall c :: c in Flushed(gs) ==> c in gs
  {
    if gs != [] {
      NonEmptyKeysIn(Finished(gs));
      assert forall g :: g in Finished(gs) ==> g in gs;
    }
  }

  // ---------------------------------------------------------------------------
  // The reducer's loop, line by line
  // ---------------------------------------------------------------------------

  const UnpackError := "ValueError: need more than 1 value to unpack"

  /**
   * The reducer between two lines: the collection and the group being
   * accumulated (current_key, current_datatype_mode), or the collection as
   * an exception left it.
   */
  datatype Reading =
    | Reading(schema: Schema, current: Option<(string, string)>)
    | Stopped(schema: Schema, error: string)

  /**
   * One unpacked line: the same key widens the group; another key writes
   * the group (unless its key is empty) and starts a new one.
   */
  function Feed(write: Write, st: Reading, p: (string, string)): Reading
  {
    match st
    case Stopped(_, _) => st
    case Reading(schema, current) =>
      if current.Some? && current.value.0 == p.0 then
        Reading(schema, Some((p.0, MaxDatatypeMode(current.value.1, p.1))))
      else if current.Some? && current.value.0 != "" then
        match write(schema, current.value.0, current.value.1)
        case Ok(s) => Reading(s, Some(p))
        case Err(e) => Stopped(schema, e)
      else Reading(schema, Some(p))
  }

  /** One input line, unpacked: a line that did not unpack raises. */
  function ReadLine(write: Write, st: Reading, line: Option<(string, string)>): Reading
  {
    if st.Stopped? then st
    else
      match line
      case None => Stopped(st.schema, UnpackError)
      case Some(p) => Feed(write, st, p)
  }

  function ReadAll(write: Write, st: Reading, ls: seq<Option<(string, string)>>): Reading
  {
    if ls == [] then st else ReadLine(write, ReadAll(write, st, ls[..|ls| - 1]), ls[|ls| - 1])
  }

  function FeedAll(write: Write, st: Reading, pairs: seq<(string, string)>): Reading
  {
    if pairs == [] then st else Feed(write, FeedAll(write, st, pairs[..|pairs| - 1]), pairs[|pairs| - 1])
  }

  /** Every input line, unpacked. */
  function Unpack(lines: seq<string>): (ls: seq<Option<(string, string)>>)
    ensures |ls| == |lines|
  {
    seq(|lines|, k requires 0 <= k < |lines| => ParseLine(lines[k]))
  }

  /** After the last line: the group still open is written, whatever its key. */
  function Finish(write: Write, st: Reading): Run
  {
    match st
    case Stopped(schema, e) => Run(schema, Some(e))
    case Reading(schema, None) => Run(schema, None)
    case Reading(schema, Some(c)) =>
      match write(schema, c.0, c.1)
      case Ok(s) => Run(s, None)
      case Err(e) => Run(schema, Some(e))
  }

  /** What the reducer leaves in the schema collection for a whole input, and the error that ended it, if any. */
  function Reduce(schema: Schema, lines: seq<string>): Run
  {
    Finish(WriteGroup, ReadAll(WriteGroup, Reading(schema, None), Unpack(lines)))
  }

  // ---------------------------------------------------------------------------
  // The loop as a fold over groups
  // ---------------------------------------------------------------------------

  predicate IsPrefix<T(==)>(a: seq<T>, b: seq<T>)
  {
    |a| <= |b| && b[..|a|] == a
  }

  /** Once a prefix of the calls fails, the rest of the calls change nothing. */
  lemma {:induction false} ApplyAllStops(write: Write, schema: Schema, calls: seq<(string, string)>, n: nat)
    requires n <= |calls|
    requires ApplyAll(write, schema, calls[..n]).failure.Some?
    ensures ApplyAll(write, schema, calls) == ApplyAll(write, schema, calls[..n])
    decreases |calls|
  {
    if n < |calls| {
      assert calls[..|calls| - 1][..n] == calls[..n];
      ApplyAllStops(write, schema, calls[..|calls| - 1], n);
    } else {
      assert calls[..n] == calls;
    }
  }

  lemma {:induction false} NonEmptyKeysPrefix(a: seq<(string, string)>, b: seq<(string, string)>)
    requires IsPrefix(a, b)
    ensures IsPrefix(NonEmptyKeys(a), NonEmptyKeys(b))
    decreases |b|
  {
    if |a| < |b| {
      var init := b[..|b| - 1];
      assert init[..|a|] == a;
      NonEmptyKeysPrefix(a, init);
      var na := NonEmptyKeys(a);
      var ni := NonEmptyKeys(init);
      var nb := NonEmptyKeys(b);
      assert nb[..|ni|] == ni;
      assert nb[..|ni|][..|na|] == nb[..|na|];
    } else {
      assert a == b;
    }
  }

  /**
   * The state the loop reaches once it has read the groups gs: every closed
   * group with a non-empty key has been written, in order, and the last
   * group is still open, unless a write failed.
   */
  function Opened(write: Write, schema: Schema, gs: seq<(string, string)>): Reading
  {
    var run := ApplyAll(write, schema, NonEmptyKeys(Finished(gs)));
    if run.failure.Some? then Stopped(run.schema, run.failure.value)
    else Reading(run.schema, if gs == [] then None else Some(gs[|gs| - 1]))
  }

  /** Writes of a prefix that failed stay failed whatever groups follow. */
  lemma PrefixStops(write: Write, schema: Schema, a: seq<(string, string)>, b: seq<(string, string)>)
    requires IsPrefix(a, b)
    requires ApplyAll(write, schema, NonEmptyKeys(a)).failure.Some?
    ensures ApplyAll(write, schema, NonEmptyKeys(b)) == ApplyAll(write, schema, NonEmptyKeys(a))
  {
    NonEmptyKeysPrefix(a, b);
    ApplyAllStops(write, schema, NonEmptyKeys(b), |NonEmptyKeys(a)|);
  }

  /** A failed write is never undone by later pairs. */
  lemma OpenedStopped(write: Write, schema: Schema, gs: seq<(string, string)>, p: (string, string))
    requires Opened(write, schema, gs).Stopped?
    ensures Opened(write, schema, Regroup(gs, p)) == Opened(write, schema, gs)
  {
    var gs' := Regroup(gs, p);
    assert IsPrefix(Finished(gs), Finished(gs'));
    PrefixStops(write, schema, Finished(gs), Finished(gs'));
  }

  /** A pair with the key of the open group only widens that group. */
  lemma OpenedSameKey(write: Write, schema: Schema, gs: seq<(string, string)>, p: (string, string))
    requires Opened(write, schema, gs).Reading? && gs != [] && gs[|gs| - 1].0 == p.0
    ensures Opened(write, schema, Regroup(gs, p)) == Feed(write, Opened(write, schema, gs), p)
  {
    assert Finished(Regroup(gs, p)) == Finished(gs);
  }

  /** A pair with a new key closes the open group, which is written when its key is not empty. */
  lemma OpenedNewKey(write: Write, schema: Schema, gs: seq<(string, string)>, p: (string, string))
    requires Opened(write, schema, gs).Reading? && (gs == [] || gs[|gs| - 1].0 != p.0)
    ensures Opened(write, schema, Regroup(gs, p)) == Feed(write, Opened(write, schema, gs), p)
  {
    assert Finished(Regroup(gs, p)) == gs;
    if gs != [] && gs[|gs| - 1].0 != "" {
      var done := NonEmptyKeys(Finished(gs));
      assert NonEmptyKeys(gs) == done + [gs[|gs| - 1]];
      assert (done + [gs[|gs| - 1]])[..|done|] == done;
    }
  }

  /** One more pair moves the group-by-group description as one step of the loop does. */
  lemma OpenedStep(write: Write, schema: Schema, gs: seq<(string, string)>, p: (string, string))
    ensures Opened(write, schema, Regroup(gs, p)) == Feed(write, Opened(write, schema, gs), p)
  {
    if Opened(write, schema, gs).Stopped? {
      OpenedStopped(write, schema, gs, p);
    } else if gs != [] && gs[|gs| - 1].0 == p.0 {
      OpenedSameKey(write, schema, gs, p);
    } else {
      OpenedNewKey(write, schema, gs, p);
    }
  }

  /** The loop, run over unpacked pairs, is the group-by-group description. */
  lemma {:induction false} FeedAllIsOpened(write: Write, schema: Schema, pairs: seq<(string, string)>)
    ensures FeedAll(write, Reading(schema, None), pairs) == Opened(write, schema, Groups(pairs))
  {
    if pairs != [] {
      FeedAllIsOpened(write, schema, pairs[..|pairs| - 1]);
      OpenedStep(write, schema, Groups(pairs[..|pairs| - 1]), pairs[|pairs| - 1]);
    }
  }

  /** The pairs of the lines that unpacked, in order. */
  function Values(ls: seq<Option<(string, string)>>): (ps: seq<(string, string)>)
    ensures |ps| <= |ls|
  {
    if ls == [] then []
    else if ls[|ls| - 1].Some? then Values(ls[..|ls| - 1]) + [ls[|ls| - 1].value]
    else Values(ls[..|ls| - 1])
  }

  /** The (key, type-mode) pairs of lines that all unpack. */
  function PairsOf(lines: seq<string>): seq<(string, string)>
  {
    Values(Unpack(lines))
  }

  lemma FeedAllSnoc(write: Write, st: Reading, pairs: seq<(string, string)>, p: (string, string))
    ensures FeedAll(write, st, pairs + [p]) == Feed(write, FeedAll(write, st, pairs), p)
  {
    assert (pairs + [p])[..|pairs|] == pairs;
  }

  /** When every line unpacks, reading the lines is feeding their pairs. */
  lemma {:induction false} ReadAllIsFeedAll(write: Write, st: Reading, ls: seq<Option<(string, string)>>)
    requires forall k :: 0 <= k < |ls| ==> ls[k].Some?
    ensures ReadAll(write, st, ls) == FeedAll(write, st, Values(ls))
  {
    if ls != [] {
      var init := ls[..|ls| - 1];
      assert forall k :: 0 <= k < |init| ==> init[k] == ls[k];
      ReadAllIsFeedAll(write, st, init);
      FeedAllSnoc(write, st, Values(init), ls[|ls| - 1].value);
    }
  }

  /** Writing the open group after the groups already written is applying the flushed calls. */
  lemma FinishOpened(write: Write, schema: Schema, gs: seq<(string, string)>)
    ensures Finish(write, Opened(write, schema, gs)) == ApplyAll(write, schema, Flushed(gs))
  {
    if gs != [] {
      var done := NonEmptyKeys(Finished(gs));
      var calls := Flushed(gs);
      assert calls[..|done|] == done;
      if ApplyAll(write, schema, done).failure.Some? {
        ApplyAllStops(write, schema, calls, |done|);
      }
    }
  }

  /**
   * When every line unpacks, the reducer calls process_new_field on the
   * flushed groups, in order, and stops at the first call that fails.
   */
  lemma ReduceWritesFlushedGroups(schema: Schema, lines: seq<string>)
    requires forall k :: 0 <= k < |lines| ==> ParseLine(lines[k]).Some?
    ensures Reduce(schema, lines) == ApplyAll(WriteGroup, schema, Flushed(Groups(PairsOf(lines))))
  {
    var pairs := PairsOf(lines);
    ReadAllIsFeedAll(WriteGroup, Reading(schema, None), Unpack(lines));
    FeedAllIsOpened(WriteGroup, schema, pairs);
    FinishOpened(WriteGroup, schema, Groups(pairs));
  }

  /**
   * On sorted (key-grouped) input where every line unpacks, process_new_field
   * is called once per non-empty key, with the fold of all that key's
   * type-modes, and the schema is the result of those calls.
   */
  lemma ReduceSortedInput(schema: Schema, lines: seq<string>)
    requires forall k :: 0 <= k < |lines| ==> ParseLine(lines[k]).Some?
    requires Grouped(PairsOf(lines))
    ensures Reduce(schema, lines) == ApplyAll(WriteGroup, schema, Flushed(Groups(PairsOf(lines))))
    ensures DistinctKeys(Flushed(Groups(PairsOf(lines))))
    ensures Keys(PairsOf(lines)) - {""} <= Keys(Flushed(Groups(PairsOf(lines)))) <= Keys(PairsOf(lines))
    ensures forall c :: c in Flushed(Groups(PairsOf(lines))) ==> Folded(PairsOf(lines), c)
  {
    var pairs := PairsOf(lines);
    ReduceWritesFlushedGroups(schema, lines);
    FlushedKeys(pairs);
    GroupsOfGroupedInput(pairs);
    FlushedIn(Groups(pairs));
  }

  lemma ReadAllSnoc(write: Write, st: Reading, ls: seq<Option<(string, string)>>, i: nat)
    requires i < |ls|
    ensures ReadAll(write, st, ls[..i + 1]) == ReadLine(write, ReadAll(write, st, ls[..i]), ls[i])
  {
    assert ls[..i + 1][..i] == ls[..i];
  }

  /** Once the reducer has raised, the remaining lines change nothing. */
  lemma {:induction false} StoppedStays(write: Write, st: Reading, ls: seq<Option<(string, string)>>, n: nat)
    requires n <= |ls|
    requires ReadAll(write, st, ls[..n]).Stopped?
    ensures ReadAll(write, st, ls) == ReadAll(write, st, ls[..n])
    decreases |ls|
  {
    if n < |ls| {
      var init := ls[..|ls| - 1];
      assert init[..n] == ls[..n];
      StoppedStays(write, st, init, n);
    } else {
      assert ls[..n] == ls;
    }
  }

  /** A line that does not split at a tab aborts the reducer. */
  lemma LineWithoutTabAborts(schema: Schema, lines: seq<string>, i: nat)
    requires i < |lines| && '\t' !in Strip(lines[i])
    ensures Reduce(schema, lines).failure.Some?
  {
    var st := Reading(schema, None);
    ParseLineSplitsAtFirstTab(lines[i]);
    ReadAllSnoc(WriteGroup, st, Unpack(lines), i);
    StoppedStays(WriteGroup, st, Unpack(lines), i + 1);
  }

  // ---------------------------------------------------------------------------
  // The schema collection and the reducer's loop
  // ---------------------------------------------------------------------------

  /** The schema collection in MongoDB, as the reducer sees it. */
  class SchemaStore {
    var fields: Schema

    constructor (initial: Schema)
      ensures fields == initial
    {
      fields := initial;
    }

    /** process_new_field against the collection. */
    method ProcessNewField(key: Option<string>, dm: Option<string>) returns (r: Result<()>)
      modifies this
      ensures NewField(old(fields), key, dm) == if r.Ok? then Ok(fields) else Err(r.error)
      ensures r.Err? ==> fields == old(fields)
    {
      if key.Some? && dm.Some? {
        if key.value in fields {
          var orig := fields[key.value];
          if !orig.forced {
            var p := ParseDatatypeMode(MaxDatatypeMode(StoredMode(orig), dm.value));
            if p.Err? {
              return Err(p.error);
            }
            fields := fields[key.value := SchemaField(p.value.0, p.value.1, orig.forced)];
          }
        } else {
          var p := ParseDatatypeMode(dm.value);
          if p.Err? {
            return Err(p.error);
          }
          fields := fields[key.value := SchemaField(p.value.0, p.value.1, false)];
        }
      }
      r := Ok(());
    }

    /** main: read the sorted "key<TAB>type-mode" lines and fold them into the collection. */
    method ReduceLines(lines: seq<string>) returns (r: Result<()>)
      modifies this
      ensures Reduce(old(fields), lines) == Run(fields, if r.Ok? then None else Some(r.error))
    {
      ghost var start := Reading(fields, None);
      ghost var ls := Unpack(lines);
      var currentKey: Option<string> := None;
      var currentMode: Option<string> := None;
      var key: Option<string> := None;
      var i := 0;
      while i < |lines|
        invariant 0 <= i <= |lines|
        invariant key == currentKey && (currentKey.Some? <==> currentMode.Some?)
        invariant ReadAll(WriteGroup, start, ls[..i])
          == Reading(fields, if currentKey.Some? then Some((currentKey.value, currentMode.value)) else None)
      {
        ReadAllSnoc(WriteGroup, start, ls, i);
        var parsed := ParseLine(lines[i]);
        assert ls[i] == parsed;
        if parsed.None? {
          StoppedStays(WriteGroup, start, ls, i + 1);
          return Err(UnpackError);
        }
        var k := parsed.value.0;
        var dm := parsed.value.1;
        key := Some(k);
        if currentKey == key {
          currentMode := Some(MaxDatatypeMode(currentMode.value, dm));
        } else {
          if currentKey.Some? && currentKey.value != "" {
            ghost var before := fields;
            var res := ProcessNewField(currentKey, currentMode);
            assert WriteGroup(before, currentKey.value, currentMode.value) == if res.Ok? then Ok(fields) else Err(res.error);
            if res.Err? {
              StoppedStays(WriteGroup, start, ls, i + 1);
              return Err(res.error);
            }
          }
          currentMode := Some(dm);
          currentKey := key;
        }
        i := i + 1;
      }
      assert ls[..i] == ls;
      // After the loop current_key == key always holds, so the open group is always written.
      if currentKey == key {
        ghost var before := fields;
        r := ProcessNewField(currentKey, currentMode);
        assert currentKey.Some? ==>
          WriteGroup(before, currentKey.value, currentMode.value) == if r.Ok? then Ok(fields) else Err(r.error);
      }
    }
  }
}
