# onefold-mongo: a verified model of the ETL core

The system copies a MongoDB collection into Hive tables (or, in its other
mode, into BigQuery). The loader (`onefold.py`) first extracts the
collection into numbered part files and rejects the documents that miss a
required field. A streaming job then infers a schema: a mapper names and
types every value, and a reducer folds the types of each column with a
widening join into a schema collection. A second mapper flattens every
document into a root row and child-table fragments. Finally the loader
creates or updates the warehouse tables from the schema and loads each
fragment into its table.

The model keeps the deterministic core of each step and turns every
external system into an input or a log:

- MongoDB gives the documents a query returns, in sort order, and the
  field records of the schema collection.
- HiveServer2 gives fixed answers: the table listing, the `desc` rows of
  each table and the rows of each query. The one exception is the listing
  that `delete_table` reads right after its own drop, which no longer holds
  the dropped table. `execute_sql` appends the statement to a log, so `create_table`, `update_table` and `delete_table`
  become planners whose whole effect is the statements they log.
- A shell command is an outcome per attempt, and `random.randint` is a
  draw per attempt. The retry loops return the sleeps they compute.
- A part file is the sequence of documents written to it.

| file | module | source |
|---|---|---|
| common.dfy | Text | Python string built-ins the scripts use: Option/Result, re.sub over [^0-9a-zA-Z_], split, join, strip, str(int), int(str), os.path.join |
| json.dfy | Json | decoded JSON values as Python sees them |
| schema_reducer.dfy | SchemaReducer | json/generate-schema-reducer.py |
| schema_mapper.dfy | SchemaMapper | json/generate-schema-mapper.py |
| combine_mapper.dfy | CombineMapper | json/combine-data-mapper.py |
| dw_util.dfy | Warehouse | dw_util.py (class Hive) |
| onefold.dfy | Loader | onefold.py |
| generate_schema.dfy | GenerateSchema | generate_schema.py (extract_data) |
| shell.dfy | Shell | execute in onefold_util.py and in generate_schema.py (the same code), execute_and_read_with_retry |
| cs_util.dfy | CloudStorage | cs_util.py |
| output_format.dfy | OutputFormat | TransformDataMultiOutputFormat.java |

`parse_datatype_mode` in onefold.py (lines 39-44) is the same function as
the reducer's and is modelled once, as `SchemaReducer.ParseDatatypeMode`.

Each imperative operation of the source is a method proved equal to a
specification function of its inputs and old state. The properties the
code promises are lemmas about those functions. Objects whose fields
change are classes: `SchemaReducer.SchemaStore` (the schema collection),
`CombineMapper.DataMapper` (the open fragment files), `Warehouse.Hive`
(the statement log) and `Loader.Loader`.

## Model

| member | source | states |
|---|---|---|
| Text.Sanitise | json/generate-schema-mapper.py:55 | every character outside [0-9a-zA-Z_] becomes "_" and letters are lowered, so the result has only [0-9a-z_] |
| Text.SanitiseFixesCleanNames | json/generate-schema-mapper.py:55 | a name already made of [0-9a-z_] is unchanged |
| Text.SanitiseIdempotent | json/generate-schema-mapper.py:55 | sanitising twice changes nothing more |
| Text.JoinSplit | onefold.py:51 | joining the pieces of a split gives back the string |
| Text.SplitJoin | onefold.py:51 | splitting a join of separator-free pieces gives back the pieces |
| Text.PathJoin | generate_schema.py:86 | os.path.join: an absolute second part replaces the first; otherwise one "/" goes between unless the first is empty or ends with one |
| Text.IntRoundTrip | json/generate-schema-mapper.py:26-33 | int(str(i)) == i for every integer |
| Text.ParseDigits | json/generate-schema-mapper.py:26-33 | int() of a byte string of decimal digits is their value |
| Text.ParseSpaceAfterSign | json/generate-schema-mapper.py:26-33 | int() allows white space between the sign and the digits: "- " then digits reads as the negated value |
| Text.TrimLeftSuffix | json/generate-schema-reducer.py:132 | the left strip drops only a prefix: what it keeps is the end of the text |
| Text.TrimRightPrefix | json/generate-schema-reducer.py:132 | the right strip drops only a suffix: what it keeps is the start of the text |
| Text.DecimalValue | json/combine-data-mapper.py:255 | a decimal digit of any script has a value below 10; an ASCII digit has its usual value, and nothing below '0' is a digit |
| Text.EncodeDecimal | json/combine-data-mapper.py:255 | the encoding int() makes of a unicode string succeeds exactly when every character encodes, and then maps it character by character |
| Text.UnicodeIntRoundTrip | json/combine-data-mapper.py:255 | int() of the unicode text of an integer is that integer |
| Text.UnicodeSpaceIsBlank | json/combine-data-mapper.py:255 | int() of a unicode string skips a leading Unicode white space character (U+001C, U+00A0, U+3000, ...) before the digits |
| Text.OtherScriptDigits | json/combine-data-mapper.py:255 | int() of a unicode string reads Arabic-Indic, fullwidth and mathematical digits as their values |
| Text.UnencodableRaises | json/combine-data-mapper.py:255 | a character that is not white space, not a decimal digit and not below U+0100 makes int() raise UnicodeEncodeError, a ValueError |
| Text.LatinLetterRaises | json/combine-data-mapper.py:255 | int(u"\u00e9") raises ValueError |
| Text.ConcatAppend | generate_schema.py:92-94 | a line written to the last file comes last in the concatenation; a new empty file adds nothing |
| Json.Get | onefold.py:52 | d.get(key) finds a value exactly when the key is present, and then the value stored under it |
| Json.ReprTextAscii | json/combine-data-mapper.py:328 | repr of a unicode string is ASCII, so str() of a list or dict never raises, while str() of a string raises UnicodeEncodeError exactly when it holds a character past ASCII |
| Text.Split | onefold.py:51 | str.split on one character: at least one piece, none holding the separator |
| Text.SplitOnce | dw_util.py:157 | s.split(sep, 1): the whole string when sep is absent, else the piece before the first sep and the rest |
| Text.RSplitOnce | dw_util.py:152-153 | s.rsplit(sep, 1): the whole string when sep is absent, else the rest and the piece after the last sep |
| Text.ReplaceChar | onefold.py:144 | str.replace of one character by another, position by position |
| SchemaReducer.ParseDatatypeMode | json/generate-schema-reducer.py:30-35 | parses exactly when the string holds a '-'; the result is the first two '-'-free fields, which sit at the front of the string; otherwise the ValueError with its message |
| SchemaReducer.SchemaStore.constructor | json/generate-schema-reducer.py:118-119 | the schema collection starts with the records it holds |
| SchemaReducer.ParseRoundTrip | json/generate-schema-reducer.py:46-56 | a stored type and mode joined as "type-mode" parse back to the same pair |
| SchemaReducer.MaxIdempotent | json/generate-schema-reducer.py:71-72 | the join of a type-mode with itself is that type-mode |
| SchemaReducer.MaxCommutative | json/generate-schema-reducer.py:69-95 | the join does not depend on the order of its arguments |
| SchemaReducer.MaxPrecedence | json/generate-schema-reducer.py:74-87 | for different inputs: record-repeated beats string-repeated beats repeated-nullable beats record-nullable beats string-nullable |
| SchemaReducer.MaxNumeric | json/generate-schema-reducer.py:89-95 | float-nullable with integer-nullable, in either order, gives float-nullable; any other different pair outside the ranked ones gives string-nullable |
| SchemaReducer.RankOfMax | json/generate-schema-reducer.py:69-95 | the join as a ranking: the higher-ranked input, float for integer and float, else string-nullable |
| SchemaReducer.MaxIsAnInputOrString | json/generate-schema-reducer.py:69-95 | the join answers one of its inputs or string-nullable |
| SchemaReducer.MaxAssociative | json/generate-schema-reducer.py:69-95 | the join is associative, so folding it over a key's values is a semilattice join |
| SchemaReducer.WidensReflexive | json/generate-schema-reducer.py:71-72 | every type-mode widens to itself |
| SchemaReducer.WidensTransitive | json/generate-schema-reducer.py:69-95 | widening composes |
| SchemaReducer.JoinIsUpperBound | json/generate-schema-reducer.py:69-95 | both inputs widen to their join |
| SchemaReducer.MaxOfDifferent | json/generate-schema-reducer.py:73-95 | two different type-modes always join to one of the six named type-modes |
| SchemaReducer.MaxKeepsDash | json/generate-schema-reducer.py:54-56 | a join starting from a stored "type-mode" still holds a '-', so the parse after it never raises |
| SchemaReducer.FoldMaxIsUpperBound | json/generate-schema-reducer.py:139-140 | every value of a key widens to the folded type-mode the reducer keeps for it |
| SchemaReducer.StoredModeHasDash | json/generate-schema-reducer.py:46 | a stored record read back as data_type + "-" + mode holds a '-' |
| SchemaReducer.NewFieldIgnoresNone | json/generate-schema-reducer.py:40 | a None key or type-mode changes nothing |
| SchemaReducer.NewFieldInserts | json/generate-schema-reducer.py:61-66 | an absent key is inserted with the parsed type and mode, not forced; the call fails with parse_datatype_mode's ValueError exactly when the type-mode has no '-' |
| SchemaReducer.NewFieldKeepsForced | json/generate-schema-reducer.py:48-53 | an entry marked forced is left as it is |
| SchemaReducer.NewFieldWidens | json/generate-schema-reducer.py:53-59 | an entry that is not forced becomes the parsed join of its stored type-mode and the new one, which widens both, never fails, and leaves the key set alone |
| SchemaReducer.NewFieldFrame | json/generate-schema-reducer.py:38-66 | a successful call adds at most its own key and changes no other entry |
| SchemaReducer.ParseLineSplitsAtFirstTab | json/generate-schema-reducer.py:132-135 | a line unpacks exactly when its stripped text holds a tab; the key is what comes before the first tab and the type-mode the rest |
| SchemaReducer.Groups | json/generate-schema-reducer.py:139-145 | the runs of equal consecutive keys: no more groups than pairs, none exactly when there are no pairs, and the last group is the last pair's key |
| SchemaReducer.GroupKeysAreKeys | json/generate-schema-reducer.py:139-145 | grouping keeps exactly the input's keys |
| SchemaReducer.GroupedFreshKey | json/generate-schema-reducer.py:137-139 | in key-grouped input a key that differs from the one before it is new |
| SchemaReducer.GroupsDistinct | json/generate-schema-reducer.py:137-145 | on key-grouped input every key forms exactly one group |
| SchemaReducer.GroupFold | json/generate-schema-reducer.py:139-140 | on key-grouped input each group carries the left fold of the join over all of its key's values |
| SchemaReducer.GroupsOfGroupedInput | json/generate-schema-reducer.py:137-145 | on key-grouped input the groups have distinct keys, the input's keys, and each the fold of its key's values |
| SchemaReducer.NonEmptyKeysDistinct | json/generate-schema-reducer.py:142-143 | skipping the empty key (`if current_key:`) removes only that key |
| SchemaReducer.FlushedKeys | json/generate-schema-reducer.py:142-149 | the process_new_field calls have distinct keys: every non-empty key, and the last key even when empty |
| SchemaReducer.ValuesOfAbsent | json/generate-schema-reducer.py:139-140 | a key that does not occur has no values |
| SchemaReducer.ApplyAllStops | json/generate-schema-reducer.py:143 | once a process_new_field call raises, later calls change nothing |
| SchemaReducer.PrefixStops | json/generate-schema-reducer.py:143 | a failure in the calls of a prefix of the groups stays whatever groups follow |
| SchemaReducer.OpenedStep | json/generate-schema-reducer.py:139-145 | one more pair moves the group-by-group description as one turn of the loop does |
| SchemaReducer.FeedAllIsOpened | json/generate-schema-reducer.py:129-145 | the loop over unpacked pairs equals the group-by-group description |
| SchemaReducer.ReadAllIsFeedAll | json/generate-schema-reducer.py:129-135 | when every line unpacks, reading the lines is feeding their pairs |
| SchemaReducer.FinishOpened | json/generate-schema-reducer.py:147-149 | writing the open group after the loop is applying the flushed calls |
| SchemaReducer.ReduceWritesFlushedGroups | json/generate-schema-reducer.py:124-149 | when every line unpacks, the reducer calls process_new_field on the flushed groups in order and stops at the first failure |
| SchemaReducer.ReduceSortedInput | json/generate-schema-reducer.py:124-149 | on sorted input process_new_field runs once per non-empty key, with the fold of all of that key's type-modes |
| SchemaReducer.StoppedStays | json/generate-schema-reducer.py:129-135 | once the reducer has raised, the remaining lines change nothing |
| SchemaReducer.LineWithoutTabAborts | json/generate-schema-reducer.py:135 | a line without a tab aborts the reducer |
| SchemaReducer.SchemaStore.ProcessNewField | json/generate-schema-reducer.py:38-66 | the collection ends as process_new_field's result; on an exception it is unchanged |
| SchemaReducer.SchemaStore.ReduceLines | json/generate-schema-reducer.py:124-149 | the collection ends as the reducer's fold over the lines, with the exception that ends it |
| SchemaMapper.LStripUnderscore | json/generate-schema-mapper.py:62-63 | lstrip("_") drops exactly the leading underscores: the result is a suffix that does not start with '_' |
| SchemaMapper.ColumnNameChars | json/generate-schema-mapper.py:55-63 | a column name exists exactly for a non-empty key (k[0] raises on an empty one), is made of [0-9a-z_] and never starts with '_' |
| SchemaMapper.ColumnNameOfDigit | json/generate-schema-mapper.py:58-63 | a key starting with a digit is named "f" + its sanitised text (the "_f" prefix loses its underscore to the strip) |
| SchemaMapper.ColumnNameOfOther | json/generate-schema-mapper.py:55-63 | any other key is its sanitised text without its leading underscores |
| SchemaMapper.UnderscoreHidesDigit | json/generate-schema-mapper.py:58-63 | the strip comes after the digit test, so "_1a" names the column "1a", which starts with a digit |
| SchemaMapper.EmptyAndScalarValues | json/generate-schema-mapper.py:70-111 | None, an empty dict and an empty list write nothing; a scalar writes one "-nullable" line typed boolean, integer, float or string, bool tested before int |
| SchemaMapper.ObjectValue | json/generate-schema-mapper.py:74-78 | a non-empty dict writes its "record-nullable" line first, then its fields under "key_" |
| SchemaMapper.FullKeyChars | json/generate-schema-mapper.py:65-68 | a full key is parent + separator + column, and stays made of [0-9a-z_.] |
| SchemaMapper.DocumentKeys | json/generate-schema-mapper.py:65-89 | every line a nested document writes has a key under parent + separator |
| SchemaMapper.ValueKeys | json/generate-schema-mapper.py:70-111 | every line a value writes has its own key or a key under it |
| SchemaMapper.TopKeys | json/generate-schema-mapper.py:51-111 | at the top of a document every written key is made of [0-9a-z_.] and every type-mode is one of the ten the mapper prints |
| SchemaMapper.TypesOf | json/generate-schema-mapper.py:86-97 | the type-modes written for exactly one key, in order, are no more than the lines |
| SchemaMapper.TypesOfAppend | json/generate-schema-mapper.py:86-97 | the type-modes of a key in two runs of lines are those of each run, in order |
| SchemaMapper.TypesOfBelow | json/generate-schema-mapper.py:89 | lines that all lie under key + "." write nothing for key itself |
| SchemaMapper.OneLinePerElement | json/generate-schema-mapper.py:84-97 | unless it raised part-way, a list writes exactly one "-repeated" line under its own key per element, typed by that element (dict, bool, int, float, else string), in order |
| SchemaMapper.IsIntegerOfInt | json/generate-schema-mapper.py:26-33 | is_integer of a decoded integer is exactly the test -maxint-1 <= i <= maxint on a 64-bit build |
| SchemaMapper.IsIntegerOfBool | json/generate-schema-mapper.py:26-33 | str(True) and str(False) do not parse as integers |
| SchemaMapper.MapAll | json/generate-schema-mapper.py:114-122 | the loop writes exactly the mapped output of the lines, and line_num ends as one plus the number of lines that did not raise |
| SchemaMapper.MappedOutputShape | json/generate-schema-mapper.py:42-122 | every written line has a key of [0-9a-z_.] and one of the ten type-modes |
| SchemaMapper.WrittenLineUnpacks | json/generate-schema-reducer.py:132-135 | a written line with a non-empty key unpacks in the reducer into exactly that key and type-mode |
| SchemaMapper.SplitAtTab | json/generate-schema-reducer.py:135 | the text before the first tab fixes the key and the rest |
| SchemaMapper.EmptyKeyAbortsReducer | json/generate-schema-reducer.py:132-135 | a line written with an empty key loses its tab to strip() and aborts the reducer |
| SchemaMapper.DollarKeyIsEmpty | json/generate-schema-mapper.py:55-66 | the top-level key "$" is written with an empty column name |
| SchemaMapper.OneField | json/generate-schema-mapper.py:53-68 | a top-level document with one key writes what its one value writes |
| CombineMapper.FindPut | json/combine-data-mapper.py:123-134 | after new_data_fragments[name] = f, reading name gives f and every other name reads as before |
| CombineMapper.PutEntries | json/combine-data-mapper.py:123-134 | storing under a name adds that entry, keeps the first entry of another name in front and brings in nothing else |
| CombineMapper.CellKeyShape | json/combine-data-mapper.py:75-79 | a cell key exists exactly for a non-empty key; it is the sanitised key, with "_f" in front when the key starts with a digit, and is made of [0-9a-z_] |
| CombineMapper.UnderscoreKeyMismatch | json/combine-data-mapper.py:75-79 | "_id" is registered by the schema mapper as "id" but looked up here as "_id" |
| CombineMapper.ShardValue | json/combine-data-mapper.py:313-334 | a shard value, when there is one, has 1 to 32 characters of [0-9a-z_]; a path that ends on a dict gives None |
| CombineMapper.ShardOfNonAsciiRaises | json/combine-data-mapper.py:326-328 | a shard value holding a character past ASCII raises UnicodeEncodeError at str(), which nothing catches |
| CombineMapper.ShardOfMissingSegment | json/combine-data-mapper.py:317-322 | a segment of the shard key missing at any depth gives None |
| CombineMapper.ShardOfCleanValue | json/combine-data-mapper.py:328-334 | a clean string of 1 to 32 characters under a one-part key is the shard value unchanged |
| CombineMapper.Convert | json/combine-data-mapper.py:156-306 | float and integer may raise (integer reads a unicode string as Python 2's int() does); boolean raises UnicodeEncodeError exactly on a string holding a character past ASCII, from str(); every other data type always gives a cell |
| CombineMapper.FailedConversion | json/combine-data-mapper.py:213-261 | a scalar value that float() or int() rejects with ValueError, not forced, is a string; it rejects the line, unless it holds a character past ASCII, when str(value) in the error message raises UnicodeEncodeError |
| CombineMapper.NonAsciiIntegerCrashes | json/combine-data-mapper.py:252-261 | an unforced integer field holding u"\u00e9" raises in the error message instead of rejecting the line |
| CombineMapper.ToIntOfText | json/combine-data-mapper.py:254-255 | int() of an integer, or of an integer printed as text, is that integer |
| CombineMapper.ConvertRaisesOnContainers | json/combine-data-mapper.py:213-261 | float() and int() raise TypeError, which no except catches, exactly on None, lists and dicts |
| CombineMapper.CleanCarries | json/combine-data-mapper.py:36-311 | at every depth the cleaned row carries hash_code, and parent_hash_code when a parent hash was passed; child rows are linked and fragment names lie below the parent key |
| CombineMapper.CleanLineCarries | json/combine-data-mapper.py:47-52 | the root row of every cleaned line carries hash_code, every child row parent_hash_code, and fragment names are distinct |
| CombineMapper.ChildRowsAppend | json/combine-data-mapper.py:168-175 | when every element converts, each element of a repeated scalar adds one row {"value", "parent_hash_code"} to the field's fragment, in order, and nothing else changes |
| CombineMapper.ForcedNeverRejects | json/combine-data-mapper.py:195-208 | with a forced type a repeated scalar never rejects: an element that does not convert is stored as None |
| CombineMapper.AddElementOneRow | json/combine-data-mapper.py:129-134 | one element's fragments add exactly its root row to the field's fragment; its other fragments never land there |
| CombineMapper.ElementStepAddsRow | json/combine-data-mapper.py:126-134 | a cleaned element adds exactly its root row to the field's fragment |
| CombineMapper.ElementsOneRowEach | json/combine-data-mapper.py:126-134 | each element of a repeated record adds one row to the field's fragment, in order |
| CombineMapper.RecordListRows | json/combine-data-mapper.py:122-134 | in child_table mode a repeated record's fragment gets the root row of each cleaned element, in order, each carrying parent_hash_code |
| CombineMapper.MergeRow | json/combine-data-mapper.py:144-149 | a nested record's fields are merged into the row without its own hash_code, so the row keeps the parent's |
| CombineMapper.AllSkipped | json/combine-data-mapper.py:92-104 | a dict whose fields are all empty containers or unknown keys cleans to the bare row with its hash codes |
| CombineMapper.FalsyIsNull | json/combine-data-mapper.py:308-309 | a falsy value of a non-record type known to the schema is stored as None |
| CombineMapper.RepeatedNotListRejects | json/combine-data-mapper.py:114-291 | a repeated field whose value is not a list (a truthy one, for scalar types) rejects the line |
| CombineMapper.RecordNotDictRejects | json/combine-data-mapper.py:139-142 | a record field whose value is not a dict rejects the line |
| CombineMapper.RejectedField | json/combine-data-mapper.py:116-119 | a field that rejects after the earlier ones went through rejects the whole dict |
| CombineMapper.NestedRejectionCrashes | json/combine-data-mapper.py:144-146 | a nested record that rejects does not reject the line: the caller iterates over the None it got back and raises |
| CombineMapper.ModeSchemaSplits | json/combine-data-mapper.py:106-108 | with each key's record stored as "data_type-mode", data_type_mode splits into exactly the stored type and mode |
| CombineMapper.LoadedSchemaRaises | json/combine-data-mapper.py:106-108 | with the schema main loads (the data type alone), data_type_mode[1] raises on the first known field that is not skipped |
| CombineMapper.StoredTypesHaveNoDash | json/generate-schema-reducer.py:56-66 | every data type process_new_field stores is free of '-', so the schema main loads always raises |
| CombineMapper.WriteOneOpensOnce | json/combine-data-mapper.py:361-377 | writing one fragment opens its file only when it is not open yet; an open() that raises adds only its mkdir, and the writer stays live exactly when nothing raised |
| CombineMapper.WriteFragsOpensOnce | json/combine-data-mapper.py:361-377 | writing all fragments of a line keeps every file opened at most once |
| CombineMapper.AfterLineOpensOnce | json/combine-data-mapper.py:352-377 | process_line keeps every fragment's file opened at most once |
| CombineMapper.RunLinesOpensOnce | json/combine-data-mapper.py:440-443 | over the whole input each fragment's file is opened at most once |
| CombineMapper.WriteFragsStay | json/combine-data-mapper.py:361-366 | once an open() has raised, the line's remaining fragments are not written |
| CombineMapper.CleanLineRootFirst | json/combine-data-mapper.py:55-69 | a cleaned line's first fragment is the root one, named "root/<shard>" exactly when a shard key is set, "root" otherwise |
| CombineMapper.ShardedLineRaises | json/combine-data-mapper.py:336-349 | with a shard key and no file open yet, a line that cleans raises IOError at its root fragment's open() after only the mkdir, and opens nothing |
| CombineMapper.ShardedMapperOpensNothing | json/combine-data-mapper.py:421-443 | with a shard key the mapper never opens a file, and it runs to the end exactly when every line is rejected |
| CombineMapper.RejectedWritesNothing | json/combine-data-mapper.py:356-358 | a rejected line, or one that raises, writes and opens nothing |
| CombineMapper.WriteFragsLines | json/combine-data-mapper.py:361-377 | each fragment adds its output to its own file: one line per element of a list, one line for a row |
| CombineMapper.LineWritesEachFragment | json/combine-data-mapper.py:352-377 | unless an open() raised, process_line writes every fragment of a cleaned line to that fragment's file, after what the file held |
| CombineMapper.DataMapper.constructor | json/combine-data-mapper.py:26-34 | a run starts with no open files, no commands and no shard values |
| CombineMapper.DataMapper.CleanData | json/combine-data-mapper.py:36-311 | the loop over a document's fields computes clean_data's outcome |
| CombineMapper.DataMapper.CleanField | json/combine-data-mapper.py:73-309 | one pass of the field loop computes that field's effect |
| CombineMapper.DataMapper.CleanScalar | json/combine-data-mapper.py:154-309 | the branches of a non-record field compute its effect |
| CombineMapper.DataMapper.CleanChildRows | json/combine-data-mapper.py:191-208 | the loop over a repeated scalar's elements computes its child rows, or the rejection |
| CombineMapper.DataMapper.CleanElements | json/combine-data-mapper.py:122-134 | the loop over a repeated record's elements computes the fragments they add |
| CombineMapper.DataMapper.AddElementRows | json/combine-data-mapper.py:129-134 | the loop over one element's fragments computes what it adds |
| CombineMapper.DataMapper.MergeRecord | json/combine-data-mapper.py:146-152 | the loop over a nested record's fragments computes the merged row and fragments |
| CombineMapper.DataMapper.CleanRoot | json/combine-data-mapper.py:36-70 | clean_data at the root gives the line's outcome and appends the shard value, when there is one, to shard_values |
| CombineMapper.DataMapper.CreateFileDescriptor | json/combine-data-mapper.py:336-350 | the mkdir command is always issued; the file <tmp>/<path>/<local name> is opened and recorded under path only when its directory could be made (no "/" in path, or the fragment before its last "/" was opened), otherwise open() raises |
| CombineMapper.DataMapper.ProcessLine | json/combine-data-mapper.py:352-377 | the writer state after the line and whether the line raised |
| CombineMapper.DataMapper.WriteFragments | json/combine-data-mapper.py:361-377 | the loop over a cleaned line's fragments writes each in turn and stops at the first open() that raises |
| CombineMapper.DataMapper.WriteFragment | json/combine-data-mapper.py:361-377 | one fragment's output is written to its file, opened first if needed, or the open() raises and nothing is written |
| CombineMapper.DataMapper.ProcessAll | json/combine-data-mapper.py:440-443 | the loop over the input lines, stopping at the first line that raises |
| CombineMapper.RunLinesStay | json/combine-data-mapper.py:440-443 | once a line has raised, the remaining lines change nothing |
| Warehouse.OnDatabase | dw_util.py:86-112 | one executed statement per statement, on the given database, in order |
| Warehouse.Hive.constructor | dw_util.py:80-84 | a Hive connection keeps its host, port and serde jar path and starts with an empty statement log |
| Warehouse.Hive.ExecuteSql | dw_util.py:86-112 | execute_sql appends exactly one statement, on the given database, to the log |
| Warehouse.Hive.ExecuteAll | dw_util.py:259-270 | running a list of statements appends them to the log one by one, in order |
| Warehouse.Placements | dw_util.py:142-162 | one placement per schema field, in order |
| Warehouse.PlacedTableNames | dw_util.py:142-162 | a column goes to the main table or, in child_table mode only, to a table named main + "_" followed by [0-9a-z_] characters |
| Warehouse.RepeatedField | dw_util.py:143-148 | in child_table mode a repeated field is the column `value` of table main + "_" + sanitised key; in any other mode it has no column |
| Warehouse.DottedKeyInChildTable | dw_util.py:150-154 | in child_table mode a dotted key is split at its last dot: the column is the dot-free last segment, the table is named from the prefix |
| Warehouse.DottedKeyInline | dw_util.py:155-159 | in any other mode a dotted key becomes a string column of the main table named by its first segment |
| Warehouse.BooleanTakesRecordType | dw_util.py:130-131 | a boolean record of the schema collection takes its "type" entry ("field") as its Hive type |
| Warehouse.CreatePlanRaises | dw_util.py:125-140 | create_table raises exactly when some field has an unsupported type or a timestamp/boolean field lacks 'type' |
| Warehouse.CreatePlanStays | dw_util.py:125-140 | once create_table's loop has raised, the later fields change nothing |
| Warehouse.AddUniqueKeeps | dw_util.py:164-170 | adding a column to a table's column set keeps it duplicate-free and keeps the earlier columns in order; it then holds exactly the old columns plus the new one |
| Warehouse.ColumnDefIsNoHashColumn | dw_util.py:167-170 | a field's backquoted column definition never equals one of the two hash column definitions |
| Warehouse.AddToSetShape | dw_util.py:164-170 | adding a field's column keeps every table once in the order, its columns duplicate-free, and the two hash columns first in every child table |
| Warehouse.AddToSetGrows | dw_util.py:164-170 | adding a column keeps every table and column already there and adds the new one |
| Warehouse.CreatePlanNext | dw_util.py:164-170 | one more placed field adds its column definition to its table |
| Warehouse.CreatePlanShape | dw_util.py:164-170 | table_columns keeps that shape through every field |
| Warehouse.CreatePlanHasColumns | dw_util.py:142-170 | every field that has a column is in its table under its own definition |
| Warehouse.CreatePlanColumnsFromFields | dw_util.py:164-170 | every column of a table is a hash column of a child table or comes from some field placed in that table |
| Warehouse.Creates | dw_util.py:172-174 | one create statement per planned table |
| Warehouse.Hive.PlanCreate | dw_util.py:125-170 | create_table's field loop computes table_columns or the exception, as the plan defines |
| Warehouse.Hive.CreateTable | dw_util.py:120-176 | create_table returns the planned tables (or raises before running anything) and logs one create per table |
| Warehouse.TableSchema | dw_util.py:301-319 | get_table_schema gives one field per `desc` row |
| Warehouse.ClassifyFirstMatch | dw_util.py:302-313 | a column's type is that of the first substring test that occurs in its Hive type (string, float, double, int, bigint, timestamp, boolean), and none when no test occurs |
| Warehouse.TypeReadsBack | dw_util.py:302-313 | the Hive types create_table gives string, float and integer fields are read back as the same type up to case |
| Warehouse.Hive.GetTableSchema | dw_util.py:296-319 | get_table_schema logs one `desc` and returns the table's fields |
| Warehouse.Hive.ListTables | dw_util.py:332-339 | list_tables logs one `show tables` and returns the names with the prefix |
| Warehouse.KeepPrefixed | dw_util.py:334-337 | the loop over the listed rows keeps exactly the names with the prefix, in order |
| Warehouse.WithPrefixMembers | dw_util.py:336-338 | list_tables keeps exactly the names that start with the prefix |
| Warehouse.WithPrefixConcat | dw_util.py:336-338 | list_tables keeps their order: filtering a concatenation filters each part |
| Warehouse.Hive.TableExists | dw_util.py:288-294 | table_exists logs one `show tables` and is true exactly when some row names the table |
| Warehouse.Hive.Query | dw_util.py:345-355 | query logs the query and returns the fetched rows wrapped as {"rows": [{"f": [{"v": cell}]}]} |
| Warehouse.QueryRoundTrip | dw_util.py:347-353 | reading query's output back gives the fetched rows, cell for cell and in order |
| Warehouse.ExistingColumnRaises | dw_util.py:186-187 | as written, reading the columns of a listed table that has any column raises KeyError; reading the 'type' entry gives each column's type |
| Warehouse.ColumnsOfTable | dw_util.py:186-187 | the intended read succeeds iff every column was classified, and then holds every column of the table |
| Warehouse.ColumnsStays | dw_util.py:186-187 | once reading a table's columns has raised, the later columns change nothing (with the corrected 'type' read of the Findings row) |
| Warehouse.Hive.ReadColumns | dw_util.py:186-187 | the loop over one table's fields computes its column map or the exception (with the corrected 'type' read of the Findings row) |
| Warehouse.Hive.ReadTable | dw_util.py:185-187 | one `desc` of the table, then its column map (with the corrected 'type' read of the Findings row) |
| Warehouse.ReadStep | dw_util.py:183-188 | one more listed table read adds its columns under its name (with the corrected 'type' read of the Findings row) |
| Warehouse.CurrentStays | dw_util.py:183-188 | once reading the current columns has raised, later tables change neither the result nor the statements run (with the corrected 'type' read of the Findings row) |
| Warehouse.Hive.ReadCurrent | dw_util.py:181-188 | update_table's first loop logs one `desc` per listed table and computes the current columns; the rebound table name is the last listed (with the corrected 'type' read of the Findings row) |
| Warehouse.ShadowedTableName | dw_util.py:183-225 | the table name rebound by the first loop decides where new columns go: listing users and users_tags puts a plain field of users into users_tags |
| Warehouse.UpdatePlanRaises | dw_util.py:196-213 | update_table raises exactly when some field has an unsupported type or a timestamp/boolean field lacks 'type' |
| Warehouse.UpdatePlanStays | dw_util.py:196-213 | once update_table's loop has raised, the later fields change nothing |
| Warehouse.Hive.DiffField | dw_util.py:229-251 | one field's step of the diff, as the diff rules define it |
| Warehouse.UpdatePlanNext | dw_util.py:215-251 | one more placed field takes one step of the diff |
| Warehouse.DiffStepShape | dw_util.py:245-251 | a step keeps each change and each new table once, with the two hash columns first in every new table |
| Warehouse.UpdatePlanShape | dw_util.py:245-251 | the diff keeps that shape through every field |
| Warehouse.DiffStepGrows | dw_util.py:229-251 | a step keeps everything already planned and applies the diff rule to its field |
| Warehouse.CoveredGrows | dw_util.py:229-251 | a field's diff rule stays met as the diff grows |
| Warehouse.UpdateCoversFields | dw_util.py:229-251 | every placed field gets what its rule asks: a change for another type ignoring case, an add for a missing column, a column in the create of an unknown table |
| Warehouse.ExplainedLater | dw_util.py:229-251 | a reason found among the first n fields stays a reason among the first n + 1 |
| Warehouse.ExplainedStep | dw_util.py:229-251 | a step adds only changes, adds and new columns that its own field asks for |
| Warehouse.UpdateHasReasons | dw_util.py:229-251 | conversely every change, add and new-table column is asked for by some field, and new tables are not current tables |
| Warehouse.ReadBackPlansNothing | dw_util.py:229-240 | a field whose column was created from the same type and read back plans no statement |
| Warehouse.Changes | dw_util.py:254-257 | one change statement per planned change |
| Warehouse.Hive.PlanUpdate | dw_util.py:196-251 | update_table's field loop computes the diff or the exception, as the plan defines |
| Warehouse.Hive.ApplyDiff | dw_util.py:253-270 | the change statements run first, then the adds, then the creates |
| Warehouse.Hive.UpdateListed | dw_util.py:182-272 | after the listing: the reads, then the diff's statements; returns the listed names followed by the new tables (with the corrected 'type' read of the Findings row) |
| Warehouse.Hive.UpdateTable | dw_util.py:178-272 | update_table logs `show tables`, the reads and the diff's statements and returns the existing plus the new table names, or the exception (with the corrected 'type' read of the Findings row) |
| Warehouse.LogStep | dw_util.py:259-270 | one more statement run extends the log by that statement |
| Warehouse.OnDatabaseConcat | dw_util.py:259-270 | running two lists of statements one after the other runs their concatenation |
| Warehouse.Drops | dw_util.py:278-281 | one drop statement per name |
| Warehouse.DropsPrefixed | dw_util.py:274-281 | delete_table drops exactly the listed tables that start with the table's name |
| Warehouse.AfterDrop | dw_util.py:275-278 | the listing after `drop table` holds every other table and not the dropped one |
| Warehouse.DeleteDropsChildren | dw_util.py:274-281 | delete_table drops the table once, then exactly the other listed tables that start with its name |
| Warehouse.Hive.DeleteTable | dw_util.py:274-281 | delete_table drops the table, lists the tables as they are after that drop, then drops each one that starts with its name |
| Warehouse.Hive.LoadTable | dw_util.py:341-343 | load_table logs one load of every file under the path into the table |
| Shell.BackoffValues | onefold_util.py:36 | the sleep after attempt n is 2^n seconds, or 2^n + 1 exactly when randint drew 1000, under Python 2 integer division |
| Shell.Backoffs | onefold_util.py:32-36 | one sleep per failed attempt, each computed from its attempt number and its draw |
| Shell.BackoffsValues | onefold_util.py:32-36 | each sleep after attempt i lasts 2^i or 2^i + 1 seconds |
| Shell.ExecuteCommand | onefold_util.py:7-43 | execute's attempt loop returns the result, the number of attempts and the sleeps that the attempt rules define |
| Shell.RetryReturnsAtFirstSuccess | onefold_util.py:15-36 | with retry, execute returns right after the first attempt that succeeds, having slept after each failed one |
| Shell.RetryExhausted | onefold_util.py:32-43 | with retry and no attempt succeeding, execute makes five attempts, sleeps after each (the last too) and raises "Retries exceeded" |
| Shell.ExecuteReturnsAtFirstSuccess | generate_schema.py:16-40 | execute returns after the first attempt whose return code is 0, or any return code when errors are ignored, having slept after each failure before it |
| Shell.ExecuteFailsWithoutSuccess | generate_schema.py:41-52 | when no attempt succeeds: without retry the first failure is re-raised after one attempt; with retry five attempts end in "Retries exceeded" |
| Shell.FirstSuccessExists | onefold_util.py:15-31 | when some attempt succeeds there is a first one, with every attempt before it failing |
| Shell.ExecuteSucceedsIff | onefold_util.py:9-31 | execute succeeds iff one of its one (five with retry) attempts exits with 0 or, with errors ignored, exits at all |
| Shell.ExecuteAndReadWithRetry | onefold_util.py:46-56 | the five-attempt loop returns the reading, the attempts and the sleeps that the loop rules define |
| Shell.ReadFromOutcome | onefold_util.py:46-56 | execute_and_read_with_retry runs one to five times, every run before the last returned a nonzero code, and it returns the last run's reading; on success it slept once after each earlier run |
| Shell.ReadFromStops | onefold_util.py:46-56 | from any attempt on, the loop stops after at most five attempts at the first return code 0 or exception, and every earlier attempt returned a nonzero code |
| Shell.ReadFromSleeps | onefold_util.py:46-56 | a run that ends with return code 0 slept the backoff of each earlier attempt, in order |
| Shell.ReadFromAfterFailure | onefold_util.py:46-56 | after a failed attempt below the fifth the loop sleeps its backoff and tries again; after the fifth it sleeps and returns that reading |
| CloudStorage.WithSlash | cs_util.py:52-53 | the path followed by at most one character, ending with "/" |
| CloudStorage.WithSlashIdempotent | cs_util.py:52-53 | a path that already ends with "/" is unchanged, so adding the slash twice adds it once |
| CloudStorage.LastSegment | cs_util.py:69 | the piece of the string after its last "/", or the whole string when it has none |
| CloudStorage.LastOfSplit | cs_util.py:69 | the last element of split("/") is that piece |
| CloudStorage.LastSegmentUnique | cs_util.py:69 | a string has only one last segment |
| CloudStorage.CopyTarget | cs_util.py:66-69 | the object name starts with the destination directory, slash-terminated |
| CloudStorage.CopyKeepsFileName | cs_util.py:66-69 | the copied object keeps the source's file name after the destination directory |
| CloudStorage.Rmdir | cs_util.py:28-56 | rmdir ignores errors and is not retried; HDFS runs hadoop fs -rm -r -f on the path, GCS runs gsutil -m rm -rf on gs://bucket/ and the slash-terminated path |
| CloudStorage.GcsRmdirSlashInsensitive | cs_util.py:52-56 | on GCS a path and the same path with its slash give the same command, and adding a slash changes it only when the path lacked one |
| CloudStorage.Mkdir | cs_util.py:31-60 | HDFS runs hadoop fs -mkdir -p ignoring errors; GCS runs nothing |
| CloudStorage.CopyFromLocal | cs_util.py:34-72 | copies do not ignore errors and only GCS retries; HDFS copies to dest + "/", GCS to gs://bucket/ plus the copy target |
| GenerateSchema.Parts | generate_schema.py:77-94 | no documents give no parts; otherwise the parts hold between (parts - 1) * 500 + 1 and parts * 500 documents |
| GenerateSchema.PartsNext | generate_schema.py:80-94 | writing document i opens a new part holding it when i is divisible by 500, and otherwise appends it to the last part |
| GenerateSchema.BoundaryIsMultiple | generate_schema.py:80 | with m parts holding n documents, index n opens a new part exactly when the m parts are full |
| GenerateSchema.PartsAreChunks | generate_schema.py:80-94 | part k holds exactly documents 500k to 500(k + 1) - 1, the last part those that remain |
| GenerateSchema.NewPartStep | generate_schema.py:80-89 | a document at a boundary leaves the earlier parts full and unchanged and starts a part of its own |
| GenerateSchema.SamePartStep | generate_schema.py:92-94 | a document off a boundary leaves the earlier parts unchanged and extends the last block by itself |
| GenerateSchema.ChunkOfPrefix | generate_schema.py:80-94 | a full block of 500 is the same with or without the last document |
| GenerateSchema.ChunkGrows | generate_schema.py:92-94 | the block holding the last document is the same block without it, plus that document |
| GenerateSchema.PartsHoldEveryDocument | generate_schema.py:92-94 | every document is written exactly once, in the order the query returned them |
| GenerateSchema.PartSizes | generate_schema.py:80-94 | every part holds 1 to 500 documents, every part but the last exactly 500, and document j of part k is document 500k + j |
| GenerateSchema.DocumentPlace | generate_schema.py:80-94 | document i is document i mod 500 of part i / 500 |
| GenerateSchema.PartNames | generate_schema.py:85-89 | one name per opened part |
| GenerateSchema.PartNamesNext | generate_schema.py:85-89 | opening part k + 1 appends its name to the names so far |
| GenerateSchema.PartNamesDistinct | generate_schema.py:85-89 | the part names are pairwise distinct |
| GenerateSchema.PartNameInjective | generate_schema.py:85-89 | two part files with the same name have the same part number |
| GenerateSchema.ExtractData | generate_schema.py:54-97 | extract_data writes the parts and returns the part names numbered from 1 in creation order; with no documents the final close raises |
| OutputFormat.FileNameFor | java/MapReduce/src/main/java/com/onefold/hadoop/MapReduce/TransformDataMultiOutputFormat.java:12-14 | the file name is the key's directory followed by the leaf, and an empty key or leaf is refused |
| OutputFormat.FileNameComponents | java/MapReduce/src/main/java/com/onefold/hadoop/MapReduce/TransformDataMultiOutputFormat.java:12-14 | for a slash-free key and leaf the name has exactly the two components key and leaf, and the record's value plays no part in it |
| OutputFormat.FileNameInjectiveInLeaf | java/MapReduce/src/main/java/com/onefold/hadoop/MapReduce/TransformDataMultiOutputFormat.java:13 | for a fixed key distinct leaves give distinct file names |
| OutputFormat.FileNameInjectiveInKey | java/MapReduce/src/main/java/com/onefold/hadoop/MapReduce/TransformDataMultiOutputFormat.java:13 | for a fixed slash-free leaf distinct non-empty slash-free keys give distinct file names |
| OutputFormat.ActualKey | java/MapReduce/src/main/java/com/onefold/hadoop/MapReduce/TransformDataMultiOutputFormat.java:16-19 | the key written with every record is null |
| Loader.FollowPath | onefold.py:48-56 | jsonpath_get's loop computes the value the dotted path walk defines |
| Loader.WalkNest | onefold.py:51-52 | walking a value nested under a sequence of keys by those keys finds it |
| Loader.JsonpathGetFindsNested | onefold.py:48-56 | a value stored under nested dot-free keys is found by the dotted path of those keys |
| Loader.WalkFromNone | onefold.py:50-54 | once a key is missing the walk yields None, whatever keys follow |
| Loader.SplitFirstKey | onefold.py:51 | a dotted path splits into its first dot-free key and the rest |
| Loader.JsonpathGetStops | onefold.py:48-56 | jsonpath_get gives None when the document lacks the first key, and returns the first value that is not a dict |
| Loader.Lookup | onefold.py:131-133 | required_fields.get(k) finds a policy exactly when some entry has key k |
| Loader.LookupFindsEntry | onefold.py:131-133 | with unique keys, looking up an entry's key gives that entry's policy |
| Loader.AssignStores | onefold.py:131-133 | after required_fields[k] = p, k maps to p, every other key keeps its policy, the keys stay unique, and a new key is stored last |
| Loader.LastRequired | onefold.py:127-133 | the policy kept for k is one with that key and a "required" entry |
| Loader.LastOverride | onefold.py:135-148 | the policy kept for field x has a key and a "data_type" entry, and its key with "." replaced by "_" is x |
| Loader.PoliciesRequired | onefold.py:127-133 | after the policies, required_fields maps each key to the last "required" policy for it and keeps what it held for other keys; the keys stay unique |
| Loader.PoliciesForce | onefold.py:135-148 | after the policies, the record under x is forced to the data type and mode (default nullable) of the last "data_type" policy whose key sanitises to x; other records are unchanged |
| Loader.OptionsFailIff | onefold.py:507-522 | main fails exactly when hadoop lacks host or port, or any other infrastructure lacks project or bucket |
| Loader.OptionDefaults | onefold.py:497-532 | schema db defaults to the source db, schema collection to "<collection>_schema", destination table to the collection; given values win |
| Loader.FragmentTablesDistinct | onefold.py:406-409 | distinct fragments load into distinct tables |
| Loader.LoadTargets | onefold.py:397-411 | no fragments give one load of the base table with shard None; otherwise one load per fragment, in order, into its table |
| Loader.LoadPath | onefold.py:372 | the load path is the collection's data_transform/output folder followed by the shard value, "None" for no shard |
| Loader.LoadStatements | onefold.py:397-411 | one load statement per load target |
| Loader.LoadsHitDistinctTables | onefold.py:397-411 | distinct fragments give loads into distinct tables, each the base table or "<base>_" followed by the fragment |
| Loader.FirstMissing | onefold.py:215-216 | a reported missing field is a required field that the document resolves to None |
| Loader.FirstMissingIff | onefold.py:213-240 | a document is rejected exactly when some policy with a truthy "required" resolves to None in it |
| Loader.FindMissing | onefold.py:213-240 | the policy loop stops at the first required field the document resolves to None |
| Loader.ConfigFor | onefold.py:200-201 | the extraction's part size is NUM_RECORDS_PER_PART |
| Loader.PartFiles | onefold.py:206-210 | one part file name per opened part |
| Loader.RejectFiles | onefold.py:228-232 | one reject file name per opened reject file |
| Loader.PartFilesNext | onefold.py:206-210 | opening part n + 1 appends <data folder>/<n + 1> to the part names |
| Loader.RejectFilesNext | onefold.py:228-232 | opening reject file n + 1 appends <rejected folder>/<n + 1> to the reject names |
| Loader.ExtractAllFrom | onefold.py:193-245 | the loop from document i is one step, then the rest unless the step raised |
| Loader.EveryDocumentCountedOnce | onefold.py:235-245 | each document is accepted or rejected, never both |
| Loader.ModUnique | onefold.py:201 | the remainder by n is the r of any e == q * n + r with 0 <= r < n |
| Loader.ModSub | onefold.py:201 | taking n away leaves the remainder by n as it was |
| Loader.MulAtLeast | onefold.py:201 | a positive multiple of n is at least n |
| Loader.BoundedOpen | onefold.py:200-211 | opening a part on a boundary of the extracted count keeps every part within the part size |
| Loader.BoundedAppend | onefold.py:242-245 | writing a document to a part that is new on a boundary, or off a boundary, keeps the parts bounded |
| Loader.StepMissingSortField | onefold.py:196-198 | a document without the sort field raises KeyError and changes nothing |
| Loader.AcceptDocWrites | onefold.py:242-245 | an accepted document with a part open is counted once and written last in the part files |
| Loader.RejectDocWrites | onefold.py:222-237 | a rejected document is counted once and its reject line written last in the reject files |
| Loader.PlaceAccepted | onefold.py:200-245 | from a ready state an accepted document is counted and written at the end of the part files, and the reject files are left alone |
| Loader.PlaceRejected | onefold.py:200-240 | from a ready state a rejected document is counted and its line written at the end of the reject files; the part files gain at most an empty file |
| Loader.PlaceBounded | onefold.py:200-245 | placing a document keeps every part within the part size |
| Loader.PlacePartsNamed | onefold.py:206-210 | placing a document keeps the recorded part names in step with the parts opened |
| Loader.PlaceRejectsNamed | onefold.py:228-232 | placing a document keeps the recorded reject names in step with the reject files opened |
| Loader.RejectOnBoundaryOpensEmptyPart | onefold.py:200-240 | a rejected document on a boundary of the extracted count still opens a part, which stays empty |
| Loader.StepWrites | onefold.py:193-245 | one document with the sort field is written once, to the part files or to the reject files |
| Loader.StepSortBounds | onefold.py:196-198 | the maximum becomes the document's sort value, the minimum too when it was None |
| Loader.ExtractAllFails | onefold.py:193-198 | extract_data raises exactly when some document lacks the sort field, and then KeyError |
| Loader.ExtractAllParts | onefold.py:242-245 | without an exception the accepted documents are counted and written once each, in order |
| Loader.ExtractAllRejects | onefold.py:222-237 | without an exception each rejected document is counted once and gives one reject line, in order |
| Loader.ExtractAllBounded | onefold.py:200-211 | every part holds at most NUM_RECORDS_PER_PART documents, with or without an exception |
| Loader.ExtractAllNamed | onefold.py:206-232 | the recorded file names follow the files opened, numbered from 1 in each folder |
| Loader.ExtractAllSortMax | onefold.py:198 | without an exception the maximum is the sort value of the last document |
| Loader.ExtractAllSortMin | onefold.py:196-197 | a minimum that is not None stays; from None it becomes the first document's value when that is not None |
| Loader.SchemaFields | onefold.py:333-349 | one warehouse field per schema record, then hash_code |
| Loader.SchemaFieldsCover | onefold.py:333-349 | every record of the schema collection is handed over with its data type, mode and "type" entry "field", and hash_code comes last as a nullable string with no "type" |
| Loader.AppendExisting | onefold.py:391-392 | appending to an existing table runs the check, the listing, the descriptions, then the update's statements (with the corrected 'type' read of the Findings row) |
| Loader.AppendMissing | onefold.py:393-394 | appending to a missing table runs the check, then the creation |
| Loader.ReplaceExisting | onefold.py:386-388 | overwriting an existing table runs the check, the drop of the table, the listing, the drops of its child tables, then the creation |
| Loader.ReplaceMissing | onefold.py:385-388 | overwriting a missing table runs the check, then the creation |
| Loader.OverwriteDropsFirst | onefold.py:385-388 | with overwrite an existing table is dropped right after the check, before anything is created |
| Loader.MissingTableSameEitherWay | onefold.py:385-394 | on a table that does not exist yet, append and overwrite run the same statements with the same result |
| Loader.ReplaceTable | onefold.py:385-388 | load_dw's overwrite branch returns and logs what the overwrite run defines |
| Loader.AppendTable | onefold.py:389-394 | load_dw's append branch returns and logs what the append run defines (with the corrected 'type' read of the Findings row) |
| Loader.Loader.constructor | onefold.py:488-540 | a loader starts with its settings, policies, schema collection and fragments, no required fields, no warehouse, and empty extraction state |
| Loader.Loader.Initialize | onefold.py:105-148 | with overwrite the schema collection is emptied, its field records and its fragments record alike; the warehouse and storage follow the infrastructure; the policies are then applied in order |
| Loader.Loader.Connect | onefold.py:118-124 | hadoop gets a Hive with no host (the misspelt attribute) and HDFS storage; gcloud gets no warehouse in the model and GCS storage |
| Loader.Loader.ApplyPolicyFile | onefold.py:127-148 | the loop over the policies gives the policy state the policies define |
| Loader.Loader.OpenPartFile | onefold.py:203-210 | opens the next part file and records its name |
| Loader.Loader.OpenRejectFile | onefold.py:225-232 | opens the next reject file and records its name |
| Loader.Loader.WriteAccepted | onefold.py:242-245 | counts the document and writes it to the open part file; before any part is open the file is unbound |
| Loader.Loader.WriteRejected | onefold.py:222-237 | opens a reject file on a boundary of the rejected count, counts the document and writes its line |
| Loader.Loader.PlaceDocument | onefold.py:200-245 | opens a part on a boundary of the extracted count, then rejects or writes the document |
| Loader.Loader.ExtractDocument | onefold.py:193-245 | one turn of extract_data's loop: the sort field (KeyError when absent), the bounds, the policy check, then the placement |
| Loader.Loader.ExtractData | onefold.py:151-251 | extract_data's state, files and exception are those the extraction run defines |
| Loader.Loader.LoadTableHive | onefold.py:360-376 | load_table_hive logs one load of the shard's folder into the table (suffixed by the shard when asked) and returns "<id>/<shard>" |
| Loader.Loader.LoadDw | onefold.py:379-411 | load_dw creates or updates the tables as the table run defines, records their names, then on success logs one load per target (with the corrected 'type' read of the Findings row) |
| Loader.Loader.CreateTables | onefold.py:384-394 | the table part of load_dw follows the write disposition (with the corrected 'type' read of the Findings row) |
| Loader.Loader.LoadFragments | onefold.py:396-411 | the load part of load_dw logs one load per target, in order |

## Behaviour kept as written

- The schema mapper strips leading underscores from column names (json/generate-schema-mapper.py:62-63), but clean_data does not (json/combine-data-mapper.py:75-79). So `_id` is registered as `id` and looked up as `_id`.
- `update_table` rebinds `table_name` in its first loop (dw_util.py:183). New child tables are then named from the last listed table (`Warehouse.ShadowedTableName`).
- The timestamp and boolean branches of the type chain read the field's `type` entry (dw_util.py:130-131). For the schema collection's records that entry is `"field"`, so such columns get the Hive type `field` (`Warehouse.BooleanTakesRecordType`). The appended hash_code field has no `type` entry, and a timestamp or boolean field without one raises KeyError.
- `in ('record')` is a substring test on the string "record", not a tuple test (dw_util.py:136, 209).
- `policy['key'] not in self.required_fields == None` is a chained comparison that is always false (onefold.py:131). The line that follows it is the only assignment that takes effect.
- `initialize` reads `hiveserveer_host`, while main sets `hiveserver_host` (onefold.py:73, 120, 513). The Hive host is therefore always None (`Loader.Loader.Connect`).
- A load without fragments uses the shard value None, so its path ends in `/None/` (onefold.py:372, `Loader.LoadPath`).
- A rejected document on a boundary of the extracted count opens a part that may stay empty (`Loader.RejectOnBoundaryOpensEmptyPart`).
- Before the first part is opened, writing an accepted document fails because `extract_file_codec` is unbound (`Loader.Loader.WriteAccepted`). The extraction starts from zero counts, so this happens only when the counters come from an earlier run.
- With no documents, generate_schema's extract_data fails at its final `close` (`GenerateSchema.ExtractData`).
- The output format adds no check on the key used as a folder (`OutputFormat.FileNameFor`).
- The boolean conversion and get_shard_value call `str()` on the value (json/combine-data-mapper.py:277, 283, 328). No script changes Python 2's ASCII default encoding, so a string holding a character past ASCII raises UnicodeEncodeError, which nothing catches (`CombineMapper.Convert`, `CombineMapper.ShardOfNonAsciiRaises`). The string branches call `unicode()`, which never raises.
- When float() or int() of an unforced scalar fails, the error message formats `str(value)` (json/combine-data-mapper.py:220, 260). For a string holding a character past ASCII that raises UnicodeEncodeError inside the `except ValueError` handler, and nothing catches it, so the line raises instead of being rejected (`CombineMapper.FailedConversion`, `CombineMapper.NonAsciiIntegerCrashes`). The repeated branches format `str(value)` of the list (lines 204, 245), whose repr is ASCII, so they reject.
- With a shard key, the root fragment is named "root/<shard>" (json/combine-data-mapper.py:63). create_file_descriptor runs `mkdir <tmp>/root/<shard>` without `-p`, and nothing makes `<tmp>/root`. The mkdir's failure is ignored, so open() raises IOError on the first line that cleans (`CombineMapper.ShardedLineRaises`), and the mapper opens no file (`CombineMapper.ShardedMapperOpensNothing`).

## Left out

- MongoDB, pymongo, HiveServer2, HDFS, gsutil and subprocess are not modelled. Their answers are inputs, and what is sent to them is a log or a returned command.
- Warehouse.Hive.ExecuteSql: the log holds the database and the statement. The per-connection preamble (the two `set` statements, `add jar` and `use <db>`) and the fetching of rows are not logged.
- JSON text, `dumps`, bson and the utf-8 codec writers are not modelled. Documents are `Json` values, and a line that does not parse is a None input.
- The SHA-1 of clean_data and Python's `float()` are parameters of `CombineMapper.Config`, because neither hashing nor IEEE floats are modelled. Floats are opaque values, so `CombineMapper.ToInt` truncates every float: it does not model that `int()` of a NaN raises ValueError and `int()` of an infinity raises OverflowError (json.loads accepts `NaN` and `Infinity`), nor that `float()` of an integer too large for a double raises OverflowError.
- `time.sleep` and `random.randint` are not modelled. The sleeps are the durations the code computes, and each draw is an input.
- Python 2 dicts and sets iterate in an unspecified order. The model takes insertion order (table_columns, modify_instructions, new_table_columns, required_fields, new_data_fragments). `Warehouse.Changes` flattens modify_instructions to (table, column) pairs in insertion order, whereas the source's dict of dicts emits each table's `change` statements together (dw_util.py:254-257); the two orders differ when a table's changed columns are interleaved with another table's.
- Python 2 `int` versus `long` is modelled as the signed 64-bit range, as on a 64-bit build.
- Python 2 is taken to be a wide-unicode build: `repr` writes a character past U+FFFF as one `\U` escape, where a narrow build would write two surrogate escapes, and `int()` reads the mathematical digits U+1D7CE-U+1D7FF, which a narrow build sees as surrogate pairs.
- Text.DecimalValue and Text.IsUnicodeSpace hold the decimal digits and white space of the Unicode 5.2 database that Python 2.7 ships; they are written out as tables rather than derived from the database.
- SchemaReducer.ParseLine strips the byte white space of `str.strip()`, while the reducer reads lines through a utf-8 codec (json/generate-schema-reducer.py:24, 132), so its `unicode.strip()` also removes U+001C-U+001F, U+0085, U+00A0 and the other Unicode white space. The schema mapper's output is ASCII, so no line the pipeline feeds the reducer holds them.
- `Text.Lower` lowers ASCII letters only. After `re.sub` no other letters remain in column names, and Hive type names are ASCII.
- Loader.Loader.Connect: for gcloud the warehouse is GBigQuery. That class is not part of this model, so `dw` stays unset there, and `Loader.Loader.LoadDw` covers the Hive warehouse only.
- The loader's `run`, `simple_schema_gen`, `mr_schema_gen`, `simple_data_transform` and `mr_data_transform` only chain the other steps and build hadoop command lines. They are not modelled.
- Hive's `get_num_rows`, `get_job_state`, `create_dataset` and `delete_dataset` are not modelled, because the loader does not use them.
- The `eval` or `json.loads` of the extract query is not modelled (onefold.py:181-190). The documents are the query's result.
- The creation and clearing of the tmp folders (onefold.py:153-167, generate_schema.py:56-63) are not modelled.
- main's argument parsing is not modelled. `Loader.ResolveOptions` starts from the parsed arguments.
- The order of the schema collection's field records is the `order` parameter of `Loader.Loader.LoadDw`. The fragments record is a field given when the loader is built.
- The loader's part size is a field of its extraction settings. `Loader.ConfigFor` sets it to NUM_RECORDS_PER_PART (100000), and the lemmas hold for any positive size.
- combine-data-mapper's main never assigns `shard_key` or `process_array` (the code is commented out, json/combine-data-mapper.py:431-437). The model takes both as `CombineMapper.Config` fields.
- Hadoop's `Path` normalisation is not modelled. `Path(key, leaf)` is `key + "/" + leaf`, and an empty string is refused.
- combine-data-mapper's main runs `rm -rf <tmp>` and `mkdir <tmp>` (json/combine-data-mapper.py:421-422). The model takes the result as an empty `<tmp>`: the writer starts with no open files, and the directories under `<tmp>` are those of the opened fragments.
- new_data_fragments is a Python 2 dict, so process_line may write a line's fragments in another order. The model writes them in insertion order, which puts the root fragment first. With a shard key the line raises at the root fragment's open(); in another order, fragments before it would be written first.
- CombineMapper.LineWritesEachFragment: the fragments are written only when no open() raised. The model does not prove that a line without a shard key never raises there; that would need every fragment name to be free of "/".
- Progress printing, stderr logging and `usage()` are not modelled.

## Findings

| source | as written | input that shows it | evidently intended | confidence | as-written member | corrected member |
|---|---|---|---|---|---|---|
| dw_util.py:186-187 | the loop over a listed table's fields reads each field's 'data_type' entry, but get_table_schema builds fields with only 'type', 'key' and 'mode', so the lookup raises KeyError | append to a table that already exists and has at least one column | read the 'type' entry, whose value compares with the new field's data type ignoring case | not executed | Warehouse.ExistingColumnRaises | Warehouse.ColumnsOfTable |
| json/combine-data-mapper.py:428-429 | main loads only each field's `data_type` into the schema map, but clean_data reads the mode at index 1 of `data_type_mode.split("-")` (line 108), which raises IndexError | a line with a non-empty value under a key the schema collection holds | load "data_type-mode", the form the schema mapper emits and clean_data indexes | not executed | CombineMapper.LoadedSchemaRaises | CombineMapper.ModeSchemaSplits |
