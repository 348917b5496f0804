/**
 * extract_data of generate_schema.py: the documents a Mongo query returns
 * are written, in order, into numbered part files of at most 500
 * documents each. The documents are Json values (their text form is not
 * modelled); a part file is the sequence of documents written to it.
 */
module GenerateSchema {
  import opened Text
  import opened Json

  const NumRecordsPerPart: nat := 500

  /** The error `extract_file.close()` raises when no part was ever opened. */
  const NoPartOpened := "AttributeError: 'NoneType' object has no attribute 'close'"

  /**
   * The part files after writing docs: before the document at each index
   * divisible by 500 a new part opens, and every document goes to the part
   * open at the time.
   */
  function Parts(docs: seq<Json>): (parts: seq<seq<Json>>)
    ensures docs == [] <==> parts == []
    ensures parts != [] ==> (|parts| - 1) * NumRecordsPerPart < |docs| <= |parts| * NumRecordsPerPart
    decreases |docs|
  {
    if docs == [] then []
    else
      var prev := Parts(docs[..|docs| - 1]);
      var d := docs[|docs| - 1];
      BoundaryIsMultiple(|docs| - 1, |prev|);
      if (|docs| - 1) % NumRecordsPerPart == 0 then prev + [[d]]
      else prev[..|prev| - 1] + [prev[|prev| - 1] + [d]]
  }

  /** Writing document i of docs after the first i. */
  lemma PartsNext(docs: seq<Json>, i: nat)
    requires i < |docs|
    ensures var prev := Parts(docs[..i]);
            Parts(docs[..i + 1]) == if i % NumRecordsPerPart == 0 then prev + [[docs[i]]]
                                    else prev[..|prev| - 1] + [prev[|prev| - 1] + [docs[i]]]
  {
    assert docs[..i + 1][..i] == docs[..i];
  }

  /** With m parts holding n documents, the index n starts a new part exactly when the m parts are full. */
  lemma BoundaryIsMultiple(n: nat, m: nat)
    requires (m == 0 && n == 0) || (0 < m && (m - 1) * NumRecordsPerPart < n <= m * NumRecordsPerPart)
    ensures n % NumRecordsPerPart == 0 <==> n == m * NumRecordsPerPart
  {
    var q := n / NumRecordsPerPart;
    assert n == q * NumRecordsPerPart + n % NumRecordsPerPart;
    if n % NumRecordsPerPart == 0 && m > 0 {
      assert (m - 1) * NumRecordsPerPart < q * NumRecordsPerPart <= m * NumRecordsPerPart;
      assert m - 1 < q <= m;
    }
  }

  function Min(a: int, b: int): int
  {
    if a <= b then a else b
  }

  /** The k-th block of 500 consecutive documents: documents 500k .. 500(k+1)-1. */
  function Chunk(docs: seq<Json>, k: nat): seq<Json>
    requires k * NumRecordsPerPart <= |docs|
  {
    docs[k * NumRecordsPerPart .. Min((k + 1) * NumRecordsPerPart, |docs|)]
  }

  /** Part k (numbered from 0) holds exactly documents 500k .. 500(k+1)-1 of the query's result. */
  ghost predicate PartsMatchChunks(docs: seq<Json>)
  {
    forall k :: 0 <= k < |Parts(docs)| ==> k * NumRecordsPerPart < |docs| && Parts(docs)[k] == Chunk(docs, k)
  }

  lemma {:induction false} PartsAreChunks(docs: seq<Json>)
    ensures PartsMatchChunks(docs)
    decreases |docs|
  {
    if docs != [] {
      var n := |docs| - 1;
      PartsAreChunks(docs[..n]);
      BoundaryIsMultiple(n, |Parts(docs[..n])|);
      if n == |Parts(docs[..n])| * NumRecordsPerPart {
        NewPartStep(docs);
      } else {
        SamePartStep(docs);
      }
    }
  }

  /** The last document opened a new part: the earlier parts are unchanged full blocks, the new one holds it alone. */
  lemma NewPartStep(docs: seq<Json>)
    requires docs != [] && PartsMatchChunks(docs[..|docs| - 1])
    requires |docs| - 1 == |Parts(docs[..|docs| - 1])| * NumRecordsPerPart
    ensures PartsMatchChunks(docs)
  {
    var n := |docs| - 1;
    var prev := Parts(docs[..n]);
    var parts := Parts(docs);
    assert parts == prev + [[docs[n]]];
    forall k | 0 <= k < |parts|
      ensures k * NumRecordsPerPart < |docs| && parts[k] == Chunk(docs, k)
    {
      if k < |prev| {
        ChunkOfPrefix(docs, k);
      } else {
        assert Chunk(docs, k) == docs[n..n + 1];
      }
    }
  }

  /** The last document joined the last part: the earlier parts are unchanged, the last block grows by it. */
  lemma SamePartStep(docs: seq<Json>)
    requires docs != [] && PartsMatchChunks(docs[..|docs| - 1])
    requires Parts(docs[..|docs| - 1]) != [] && |docs| - 1 < |Parts(docs[..|docs| - 1])| * NumRecordsPerPart
    requires (|docs| - 1) % NumRecordsPerPart != 0
    ensures PartsMatchChunks(docs)
  {
    var n := |docs| - 1;
    var prev := Parts(docs[..n]);
    var parts := Parts(docs);
    var last := |prev| - 1;
    assert parts == prev[..last] + [prev[last] + [docs[n]]];
    forall k | 0 <= k < |parts|
      ensures k * NumRecordsPerPart < |docs| && parts[k] == Chunk(docs, k)
    {
      if k < last {
        ChunkOfPrefix(docs, k);
      } else {
        ChunkGrows(docs, k);
      }
    }
  }

  /** A full block of 500 is the same in docs and in docs without its last document. */
  lemma ChunkOfPrefix(docs: seq<Json>, k: nat)
    requires (k + 1) * NumRecordsPerPart < |docs|
    ensures Chunk(docs[..|docs| - 1], k) == Chunk(docs, k)
  {
  }

  /** The block holding the last document is the same block without it, plus that document. */
  lemma ChunkGrows(docs: seq<Json>, k: nat)
    requires k * NumRecordsPerPart < |docs| - 1 < (k + 1) * NumRecordsPerPart
    ensures Chunk(docs, k) == Chunk(docs[..|docs| - 1], k) + [docs[|docs| - 1]]
  {
    var n := |docs| - 1;
    assert Chunk(docs, k) == docs[k * NumRecordsPerPart..n + 1];
    assert Chunk(docs[..n], k) == docs[k * NumRecordsPerPart..n];
  }

  /** Every document is written exactly once, in the order the query returned them. */
  lemma {:induction false} PartsHoldEveryDocument(docs: seq<Json>)
    ensures Concat(Parts(docs)) == docs
    decreases |docs|
  {
    if docs != [] {
      var n := |docs| - 1;
      var p := docs[..n];
      PartsHoldEveryDocument(p);
      var prev := Parts(p);
      var parts := Parts(docs);
      if n % NumRecordsPerPart == 0 {
        assert parts[..|parts| - 1] == prev;
      } else {
        var last := |prev| - 1;
        assert parts[..|parts| - 1] == prev[..last];
        assert prev[..last] == prev[..|prev| - 1];
        assert Concat(prev) == Concat(prev[..last]) + prev[last];
      }
      assert docs == p + [docs[n]];
    }
  }

  /**
   * Every part holds 1 to 500 documents, and every part but the last
   * exactly 500; the j-th document of part k is document 500k + j.
   */
  lemma PartSizes(docs: seq<Json>)
    ensures forall k :: 0 <= k < |Parts(docs)| ==> 1 <= |Parts(docs)[k]| <= NumRecordsPerPart
    ensures forall k :: 0 <= k < |Parts(docs)| - 1 ==> |Parts(docs)[k]| == NumRecordsPerPart
    ensures forall k, j :: 0 <= k < |Parts(docs)| && 0 <= j < |Parts(docs)[k]| ==>
              k * NumRecordsPerPart + j < |docs| && Parts(docs)[k][j] == docs[k * NumRecordsPerPart + j]
  {
    PartsAreChunks(docs);
    var parts := Parts(docs);
    forall k | 0 <= k < |parts|
      ensures 1 <= |parts[k]| <= NumRecordsPerPart
      ensures k < |parts| - 1 ==> |parts[k]| == NumRecordsPerPart
    {
      assert parts[k] == Chunk(docs, k);
      if k < |parts| - 1 {
        assert (k + 1) * NumRecordsPerPart <= (|parts| - 1) * NumRecordsPerPart;
      }
    }
  }

  /** Document i is the (i mod 500)-th document of part i / 500. */
  lemma DocumentPlace(docs: seq<Json>, i: nat)
    requires i < |docs|
    ensures i / NumRecordsPerPart < |Parts(docs)|
    ensures i % NumRecordsPerPart < |Parts(docs)[i / NumRecordsPerPart]|
    ensures Parts(docs)[i / NumRecordsPerPart][i % NumRecordsPerPart] == docs[i]
  {
    var k := i / NumRecordsPerPart;
    var j := i % NumRecordsPerPart;
    QuotientBelow(i, |Parts(docs)|);
    PartIsChunk(docs, k);
    ChunkIndex(docs, k, j);
  }

  /** The j-th document of block k is document 500k + j. */
  lemma ChunkIndex(docs: seq<Json>, k: nat, j: nat)
    requires j < NumRecordsPerPart && k * NumRecordsPerPart + j < |docs|
    ensures j < |Chunk(docs, k)| && Chunk(docs, k)[j] == docs[k * NumRecordsPerPart + j]
  {
  }

  /** Part k is block k. */
  lemma PartIsChunk(docs: seq<Json>, k: nat)
    requires k < |Parts(docs)|
    ensures k * NumRecordsPerPart < |docs| && Parts(docs)[k] == Chunk(docs, k)
  {
    PartsAreChunks(docs);
  }

  /** Index i below m blocks of 500 lies in block i / 500, at offset i mod 500. */
  lemma QuotientBelow(i: nat, m: nat)
    requires i < m * NumRecordsPerPart
    ensures i / NumRecordsPerPart < m
    ensures i == (i / NumRecordsPerPart) * NumRecordsPerPart + i % NumRecordsPerPart
    ensures i < (i / NumRecordsPerPart + 1) * NumRecordsPerPart
  {
  }

  /** The name of part k: os.path.join(tmp_path, collection_name + str(k)). */
  function PartName(tmpPath: string, collectionName: string, k: nat): string
  {
    PathJoin(tmpPath, collectionName + NatToString(k))
  }

  /** The part file names: os.path.join(tmp_path, collection_name + str(part_num)), numbered from 1. */
  function PartNames(tmpPath: string, collectionName: string, count: nat): (names: seq<string>)
    ensures |names| == count
  {
    seq(count, k requires 0 <= k < count => PartName(tmpPath, collectionName, k + 1))
  }

  lemma PartNamesNext(tmpPath: string, collectionName: string, count: nat)
    ensures PartNames(tmpPath, collectionName, count + 1)
            == PartNames(tmpPath, collectionName, count) + [PartName(tmpPath, collectionName, count + 1)]
  {
  }

  /** Part names are pairwise distinct: the number of each part tells them apart. */
  lemma PartNamesDistinct(tmpPath: string, collectionName: string, count: nat)
    ensures forall j, k :: 0 <= j < k < count ==> PartNames(tmpPath, collectionName, count)[j] != PartNames(tmpPath, collectionName, count)[k]
  {
    var names := PartNames(tmpPath, collectionName, count);
    forall j, k | 0 <= j < k < count
      ensures names[j] != names[k]
    {
      if names[j] == names[k] {
        PartNameInjective(tmpPath, collectionName, j + 1, k + 1);
      }
    }
  }

  /** Two parts with the same file name have the same number. */
  lemma PartNameInjective(tmpPath: string, collectionName: string, a: nat, b: nat)
    requires PartName(tmpPath, collectionName, a) == PartName(tmpPath, collectionName, b)
    ensures a == b
  {
    var ba := collectionName + NatToString(a);
    var bb := collectionName + NatToString(b);
    SameLead(collectionName, a, b);
    if !StartsWith(ba, "/") {
      PathJoinRelative(tmpPath, ba);
      PathJoinRelative(tmpPath, bb);
      AppendCancel(if tmpPath == "" || EndsWith(tmpPath, "/") then tmpPath else tmpPath + "/", ba, bb);
    }
    AppendCancel(collectionName, NatToString(a), NatToString(b));
    DigitsOfNat(a);
    DigitsOfNat(b);
  }

  /** The collection name followed by any number starts with "/" either for every number or for none. */
  lemma SameLead(collectionName: string, a: nat, b: nat)
    ensures StartsWith(collectionName + NatToString(a), "/") == StartsWith(collectionName + NatToString(b), "/")
  {
    var ba := collectionName + NatToString(a);
    var bb := collectionName + NatToString(b);
    if collectionName == "" {
      assert ba[0] == NatToString(a)[0] && bb[0] == NatToString(b)[0];
    } else {
      assert ba[0] == collectionName[0] == bb[0];
    }
  }

  /**
   * extract_data: writes the documents into parts of 500 and returns the
   * part names in creation order; with no documents the final close of a
   * file that was never opened raises.
   */
  method ExtractData(tmpPath: string, collectionName: string, docs: seq<Json>)
    returns (r: Result<seq<string>>, files: seq<seq<Json>>)
    ensures files == Parts(docs)
    ensures docs == [] ==> r == Err(NoPartOpened)
    ensures docs != [] ==> r == Ok(PartNames(tmpPath, collectionName, |files|))
  {
    var partNum := 0;
    var fileOpen := false;
    var names: seq<string> := [];
    files := [];
    var index := 0;
    while index < |docs|
      invariant 0 <= index <= |docs|
      invariant files == Parts(docs[..index])
      invariant partNum == |files|
      invariant names == PartNames(tmpPath, collectionName, partNum)
      invariant fileOpen <==> index > 0
    {
      var d := docs[index];
      PartsNext(docs, index);
      if index % NumRecordsPerPart == 0 {
        // close the open part, open part partNum + 1 and write d into it
        partNum := partNum + 1;
        names := names + [PartName(tmpPath, collectionName, partNum)];
        PartNamesNext(tmpPath, collectionName, partNum - 1);
        files := files + [[d]];
        fileOpen := true;
      } else {
        files := files[..|files| - 1] + [files[|files| - 1] + [d]];
      }
      index := index + 1;
    }
    assert docs[..index] == docs;
    if !fileOpen {
      return Err(NoPartOpened), files;
    }
    r := Ok(names);
  }
}
