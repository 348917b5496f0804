/**
 * TransformDataMultiOutputFormat: the MapReduce output format that sends
 * each record to the folder named by its key (the fragment it belongs to).
 * Hadoop's Path(parent, child) is taken as parent + "/" + child, with its
 * check that neither string is empty.
 */
module OutputFormat {
  import opened Text

  /**
   * generateFileNameForKeyValue: the file name is the task's leaf inside
   * the directory named by the key; Path refuses an empty string with an
   * IllegalArgumentException.
   */
  function FileNameFor(key: string, value: string, leaf: string): (r: Result<string>)
    ensures r.Ok? <==> key != "" && leaf != ""
    ensures r.Ok? ==> StartsWith(r.value, key + "/") && EndsWith(r.value, leaf)
  {
    if key == "" || leaf == "" then Err("Can not create a Path from an empty string")
    else
      var name := key + "/" + leaf;
      assert name[..|key + "/"|] == key + "/";
      assert name[|name| - |leaf|..] == leaf;
      Ok(name)
  }

  /**
   * For a slash-free key and leaf, the name has exactly two components:
   * the key is its parent directory and the leaf its last component; the
   * record's value plays no part in it.
   */
  lemma FileNameComponents(key: string, value: string, leaf: string)
    requires key != "" && leaf != "" && '/' !in key && '/' !in leaf
    ensures FileNameFor(key, value, leaf).Ok?
    ensures Split(FileNameFor(key, value, leaf).value, '/') == [key, leaf]
    ensures forall other :: FileNameFor(key, other, leaf) == FileNameFor(key, value, leaf)
  {
    assert Join([key, leaf], '/') == key + "/" + leaf by {
      assert [key, leaf][1..] == [leaf];
    }
    SplitJoin([key, leaf], '/');
  }

  /** For a fixed key, distinct leaves give distinct file names. */
  lemma FileNameInjectiveInLeaf(key: string, value: string, leaf1: string, leaf2: string)
    requires FileNameFor(key, value, leaf1).Ok? && FileNameFor(key, value, leaf2).Ok?
    requires leaf1 != leaf2
    ensures FileNameFor(key, value, leaf1).value != FileNameFor(key, value, leaf2).value
  {
    var n1 := FileNameFor(key, value, leaf1).value;
    var n2 := FileNameFor(key, value, leaf2).value;
    if n1 == n2 {
      assert n1[|key| + 1..] == leaf1;
      assert n2[|key| + 1..] == leaf2;
    }
  }

  /** For a fixed leaf, distinct non-empty slash-free keys give distinct file names. */
  lemma FileNameInjectiveInKey(key1: string, key2: string, value: string, leaf: string)
    requires FileNameFor(key1, value, leaf).Ok? && FileNameFor(key2, value, leaf).Ok?
    requires '/' !in key1 && '/' !in key2 && '/' !in leaf
    requires key1 != key2
    ensures FileNameFor(key1, value, leaf).value != FileNameFor(key2, value, leaf).value
  {
    FileNameComponents(key1, value, leaf);
    FileNameComponents(key2, value, leaf);
  }

  /** generateActualKey: the key written with each record, which is always null, so the routing key is dropped. */
  function ActualKey(key: string, value: string): (r: Option<string>)
    ensures r.None?
  {
    None
  }
}
