/** What a sender offers: one file, or the collected entries of a folder
    (`collectFolderPackageEntries` in src/main/app_runtime.cpp). */
module TransferSource {
  import opened Prelude

  datatype FolderEntry =
    | Directory(path: seq<string>)
    | File(path: seq<string>, content: seq<Byte>)
  {
    function Bytes(): seq<Byte> {
      if File? then content else []
    }

    /** Directories count as zero bytes, as in the seek loop of `sendTransferPartFrames`. */
    function Size(): nat {
      |Bytes()|
    }
  }

  datatype Source =
    | FlatSource(content: seq<Byte>)
    | FolderSource(entries: seq<FolderEntry>)
  {
    function Size(): nat {
      match this
      case FlatSource(content) => |content|
      case FolderSource(entries) => Start(entries, |entries|)
    }

    /** The bytes of the whole transfer in the order in which they are sent. */
    function Bytes(): seq<Byte> {
      match this
      case FlatSource(content) => content
      case FolderSource(entries) => Flatten(entries, |entries|)
    }

    ghost predicate WellFormed() {
      FolderSource? ==> DistinctPaths(entries) && ListsParents(entries) && forall i | 0 <= i < |entries| :: entries[i].path != []
    }
  }

  ghost predicate DistinctPaths(entries: seq<FolderEntry>) {
    forall i, j | 0 <= i < |entries| && 0 <= j < |entries| && entries[i].path == entries[j].path :: i == j
  }

  /** Every directory above an entry is an entry. */
  ghost predicate ListsParents(entries: seq<FolderEntry>) {
    forall i, k | 0 <= i < |entries| && 0 < k < |entries[i].path| :: Directory(entries[i].path[..k]) in entries
  }

  /** Where entry `i` starts in the stream: the sum of the sizes before it. */
  function Start(entries: seq<FolderEntry>, i: nat): nat
    requires i <= |entries|
  {
    if i == 0 then 0 else Start(entries, i - 1) + entries[i - 1].Size()
  }

  /** The bytes of the first `i` entries, one after the other. */
  function Flatten(entries: seq<FolderEntry>, i: nat): (bytes: seq<Byte>)
    requires i <= |entries|
    ensures |bytes| == Start(entries, i)
  {
    if i == 0 then [] else Flatten(entries, i - 1) + entries[i - 1].Bytes()
  }

  lemma {:induction false} StartMonotone(entries: seq<FolderEntry>, i: nat, j: nat)
    requires i < j <= |entries|
    ensures Start(entries, i) + entries[i].Size() <= Start(entries, j)
  {
    if i + 1 < j { StartMonotone(entries, i, j - 1); }
  }

  lemma {:induction false} SliceOfFront(front: seq<Byte>, back: seq<Byte>, from: nat, to: nat)
    requires from <= to <= |front|
    ensures (front + back)[from..to] == front[from..to]
  {}

  lemma {:induction false} SliceOfBack(front: seq<Byte>, back: seq<Byte>, from: nat, to: nat)
    requires from <= to <= |back|
    ensures (front + back)[|front| + from..|front| + to] == back[from..to]
  {}

  lemma {:induction false} LastSlice(entries: seq<FolderEntry>, i: nat, from: nat, to: nat)
    requires i < |entries| && from <= to <= entries[i].Size()
    ensures Flatten(entries, i + 1)[Start(entries, i) + from..Start(entries, i) + to] == entries[i].Bytes()[from..to]
  {
    SliceOfBack(Flatten(entries, i), entries[i].Bytes(), from, to);
  }

  /** The bytes of entry `i` sit in the stream from its start on. */
  lemma {:induction false} FlattenSlice(entries: seq<FolderEntry>, i: nat, n: nat, from: nat, to: nat)
    requires i < n <= |entries| && from <= to <= entries[i].Size()
    ensures Start(entries, i) + to <= Start(entries, n)
    ensures Flatten(entries, n)[Start(entries, i) + from..Start(entries, i) + to] == entries[i].Bytes()[from..to]
  {
    StartMonotone(entries, i, n);
    if i + 1 < n {
      FlattenSlice(entries, i, n - 1, from, to);
      SliceOfFront(Flatten(entries, n - 1), entries[n - 1].Bytes(), Start(entries, i) + from, Start(entries, i) + to);
    } else {
      LastSlice(entries, i, from, to);
    }
  }

  /** `folderPackageEntriesTotalFileSize`: the running sum over file entries is the stream length. */
  method FolderPackageEntriesTotalFileSize(entries: seq<FolderEntry>) returns (totalSize: nat)
    ensures totalSize == |Flatten(entries, |entries|)|
  {
    totalSize := 0;
    for i := 0 to |entries|
      invariant totalSize == Start(entries, i)
    {
      if entries[i].File? {
        totalSize := totalSize + |entries[i].content|;
      }
    }
  }
}
