/**
 * The cloud storage abstraction of cs_util.py: HDFS and Google Cloud
 * Storage. Each operation builds one shell command for execute; the model
 * returns that command (text and flags) rather than running it.
 */
module CloudStorage {
  import opened Text
  import Shell

  /** HDFSStorage, or GCloudStorage with the ids its constructor stores. */
  datatype Storage = HDFS | GCloud(projectId: string, bucketId: string)

  /** `if not path.endswith("/"): path = path + "/"` */
  function WithSlash(path: string): (r: string)
    ensures EndsWith(r, "/") && StartsWith(r, path) && |r| <= |path| + 1
  {
    if EndsWith(path, "/") then path else path + "/"
  }

  /** A path that already ends with "/" is left as it is, so adding the slash twice adds it once. */
  lemma WithSlashIdempotent(path: string)
    ensures EndsWith(path, "/") ==> WithSlash(path) == path
    ensures WithSlash(WithSlash(path)) == WithSlash(path)
  {
  }

  /** The last "/"-piece of s ends s, holds no "/", and is all of s or follows a "/". */
  ghost predicate IsLastSegment(s: string, r: string)
  {
    '/' !in r && EndsWith(s, r) && (|r| < |s| ==> s[|s| - |r| - 1] == '/')
  }

  /** `s.split("/")[-1]` */
  function LastSegment(s: string): (r: string)
    ensures IsLastSegment(s, r)
  {
    var parts := Split(s, '/');
    LastOfSplit(s);
    parts[|parts| - 1]
  }

  lemma {:induction false} LastOfSplit(s: string)
    ensures IsLastSegment(s, Split(s, '/')[|Split(s, '/')| - 1])
    decreases |s|
  {
    if '/' in s {
      var i := IndexOf(s, '/');
      var rest := s[i + 1..];
      LastOfSplit(rest);
      var parts := Split(rest, '/');
      assert Split(s, '/') == [s[..i]] + parts;
      LastSegmentAfterSlash(s, i, parts[|parts| - 1]);
    } else {
      assert Split(s, '/') == [s];
      assert s[|s| - |s|..] == s;
    }
  }

  /** The last segment of what follows a "/" is the last segment of the whole. */
  lemma LastSegmentAfterSlash(s: string, i: nat, r: string)
    requires i < |s| && s[i] == '/' && IsLastSegment(s[i + 1..], r)
    ensures IsLastSegment(s, r)
  {
    var rest := s[i + 1..];
    assert s[|s| - |r|..] == rest[|rest| - |r|..];
    if |r| == |rest| {
      assert s[|s| - |r| - 1] == s[i];
    } else {
      assert s[|s| - |r| - 1] == rest[|rest| - |r| - 1];
    }
  }

  /** There is only one last segment: the piece after the final "/". */
  lemma LastSegmentUnique(s: string, r1: string, r2: string)
    requires IsLastSegment(s, r1) && IsLastSegment(s, r2)
    ensures r1 == r2
  {
  }

  /** GCloudStorage.copy_from_local's object name: the destination directory, slash-terminated, plus the source's file name. */
  function CopyTarget(source: string, dest: string): (r: string)
    ensures StartsWith(r, WithSlash(dest))
  {
    WithSlash(dest) + LastSegment(source)
  }

  /** The copied object keeps the source's file name: the last segment of the target is that of the source. */
  lemma CopyKeepsFileName(source: string, dest: string)
    ensures LastSegment(CopyTarget(source, dest)) == LastSegment(source)
    ensures CopyTarget(source, dest)[..|WithSlash(dest)|] == WithSlash(dest)
  {
    var dir := WithSlash(dest);
    var seg := LastSegment(source);
    var t := CopyTarget(source, dest);
    assert t[|t| - |seg|..] == seg;
    assert t[|t| - |seg| - 1] == dir[|dir| - 1] == '/';
    assert IsLastSegment(t, seg);
    LastSegmentUnique(t, seg, LastSegment(t));
  }

  /** rmdir: the command that removes a directory tree; removing errors are ignored. */
  function Rmdir(s: Storage, path: string): (r: Shell.Command)
    ensures r.ignoreError && !r.retry
    ensures s.HDFS? ==> r.text == "hadoop fs -rm -r -f " + path
    ensures s.GCloud? ==> r.text == "gsutil -m rm -rf gs://" + s.bucketId + "/" + WithSlash(path)
    ensures s.GCloud? ==> StartsWith(r.text, "gsutil -m rm -rf gs://" + s.bucketId + "/") && EndsWith(r.text, "/")
  {
    match s
    case HDFS => Shell.Command("hadoop fs -rm -r -f " + path, true, false)
    case GCloud(_, bucket) =>
      var prefix := "gsutil -m rm -rf gs://" + bucket + "/";
      var text := prefix + WithSlash(path);
      assert text[..|prefix|] == prefix;
      assert text[|text| - 1..] == WithSlash(path)[|WithSlash(path)| - 1..];
      Shell.Command(text, true, false)
  }

  /** On Google Cloud Storage a path and the same path with its slash remove the same objects. */
  lemma GcsRmdirSlashInsensitive(projectId: string, bucketId: string, path: string)
    ensures Rmdir(GCloud(projectId, bucketId), path + "/") == Rmdir(GCloud(projectId, bucketId), path)
            <==> !EndsWith(path, "/")
    ensures Rmdir(GCloud(projectId, bucketId), WithSlash(path)) == Rmdir(GCloud(projectId, bucketId), path)
  {
    WithSlashIdempotent(path);
    var p := path + "/";
    assert EndsWith(p, "/");
    if EndsWith(path, "/") {
      assert |WithSlash(p)| == |path| + 1 != |path| == |WithSlash(path)|;
      var prefix := "gsutil -m rm -rf gs://" + bucketId + "/";
      assert |Rmdir(GCloud(projectId, bucketId), p).text| == |prefix| + |path| + 1;
    }
  }

  /** mkdir: HDFS creates the directory, ignoring errors; Google Cloud Storage has no directories and runs nothing. */
  function Mkdir(s: Storage, path: string): (r: Option<Shell.Command>)
    ensures r.Some? <==> s.HDFS?
    ensures r.Some? ==> r.value.ignoreError && !r.value.retry && r.value.text == "hadoop fs -mkdir -p " + path
  {
    match s
    case HDFS => Some(Shell.Command("hadoop fs -mkdir -p " + path, true, false))
    case GCloud(_, _) => None
  }

  /** copy_from_local: errors are not ignored, and only the Google Cloud Storage copy is retried. */
  function CopyFromLocal(s: Storage, source: string, dest: string): (r: Shell.Command)
    ensures !r.ignoreError && (r.retry <==> s.GCloud?)
    ensures s.HDFS? ==> EndsWith(r.text, dest + "/")
    ensures s.GCloud? ==> EndsWith(r.text, "gs://" + s.bucketId + "/" + CopyTarget(source, dest))
  {
    match s
    case HDFS =>
      var text := "hadoop fs -copyFromLocal " + source + " " + dest + "/";
      assert text[|text| - |dest + "/"|..] == dest + "/";
      Shell.Command(text, false, false)
    case GCloud(_, bucket) =>
      var target := "gs://" + bucket + "/" + CopyTarget(source, dest);
      var text := "gsutil -m cp " + source + " " + target;
      assert text[|text| - |target|..] == target;
      Shell.Command(text, false, true)
  }
}
