/** What a partly received transfer leaves on disk, file by file, and what one chunk of an honest sender
    does to it. */
module TransferProgress {
  import opened Prelude
  import opened FolderPaths
  import opened TransferSource
  import opened TransferProducer
  import opened TransferReceiver

  ghost predicate MatchesEntry(entry: FolderEntry, node: Node) {
    if entry.Directory? then node.DirectoryNode? else node.FileNode? && (|entry.content| == 0 ==> node.content == [])
  }

  ghost predicate IsEntry(entries: seq<FolderEntry>, tree: Tree, path: seq<string>) {
    path in tree ==> exists i :: 0 <= i < |entries| && entries[i].path == path && MatchesEntry(entries[i], tree[path])
  }

  /** Whatever exists below the root is an entry of the source. */
  ghost predicate HoldsOnlyEntries(entries: seq<FolderEntry>, tree: Tree) {
    forall path {:trigger IsEntry(entries, tree, path)} :: IsEntry(entries, tree, path)
  }

  // ---- How much of each file is on disk ----

  function BytesOf(entry: FolderEntry, tree: Tree): nat {
    if entry.path in tree && tree[entry.path].FileNode? then |tree[entry.path].content| else 0
  }

  /** The number of bytes on disk, entry by entry. */
  function CountsOf(entries: seq<FolderEntry>, tree: Tree): (counts: seq<nat>)
    ensures |counts| == |entries|
    ensures forall i {:trigger counts[i]} | 0 <= i < |entries| :: counts[i] == BytesOf(entries[i], tree)
  {
    seq(|entries|, i requires 0 <= i < |entries| => BytesOf(entries[i], tree))
  }

  /** If a non-empty file exists it holds some, but no other than its own first bytes. */
  ghost predicate IsPrefix(entry: FolderEntry, tree: Tree) {
    entry.Size() > 0 && entry.path in tree ==>
      && tree[entry.path].FileNode? && 0 < BytesOf(entry, tree) <= entry.Size()
      && tree[entry.path].content == entry.Bytes()[..BytesOf(entry, tree)]
  }

  ghost predicate HoldsPrefixes(entries: seq<FolderEntry>, tree: Tree) {
    HoldsOnlyEntries(entries, tree) && forall i | 0 <= i < |entries| :: IsPrefix(entries[i], tree)
  }

  /** The first `n` entries exist on disk, empty files and directories included. */
  ghost predicate HoldsEntries(source: Source, target: Target, n: nat) {
    source.FolderSource? ==>
      n <= |source.entries| && forall i | 0 <= i < n :: target.FolderTree? && source.entries[i].path in target.tree
  }

  lemma {:induction false} NodeOfEntry(entries: seq<FolderEntry>, tree: Tree, i: nat)
    requires DistinctPaths(entries) && HoldsOnlyEntries(entries, tree)
    requires i < |entries| && entries[i].path in tree
    ensures MatchesEntry(entries[i], tree[entries[i].path])
  {
    assert IsEntry(entries, tree, entries[i].path);
    var j :| 0 <= j < |entries| && entries[j].path == entries[i].path && MatchesEntry(entries[j], tree[entries[i].path]);
  }

  lemma {:induction false} DirectoryAt(entries: seq<FolderEntry>, tree: Tree, i: nat, k: nat) returns (j: nat)
    requires DistinctPaths(entries) && ListsParents(entries) && HoldsOnlyEntries(entries, tree)
    requires i < |entries| && 0 < k <= |entries[i].path| && (k < |entries[i].path| || entries[i].Directory?)
    ensures j < |entries| && entries[j] == Directory(entries[i].path[..k])
    ensures entries[j].path in tree ==> tree[entries[j].path].DirectoryNode?
  {
    var path := entries[i].path;
    if k < |path| {
      assert Directory(entries[i].path[..k]) in entries;
      j :| 0 <= j < |entries| && entries[j] == Directory(path[..k]);
    } else {
      assert path[..k] == path;
      j := i;
    }
    if entries[j].path in tree { NodeOfEntry(entries, tree, j); }
  }

  ghost predicate AddsDirectories(entries: seq<FolderEntry>, tree: Tree, tree': Tree) {
    && (forall p | p in tree :: p in tree' && tree'[p] == tree[p])
    && (forall p | p in tree' && p !in tree :: tree'[p] == DirectoryNode && Directory(p) in entries)
  }

  /** Creating the directories above an entry, or a directory entry itself, never meets a file and
      adds only directories of the source. */
  lemma {:induction false} DirectoriesAreEntries(entries: seq<FolderEntry>, tree: Tree, i: nat, depth: nat)
    requires DistinctPaths(entries) && ListsParents(entries) && HoldsOnlyEntries(entries, tree)
    requires i < |entries| && depth <= |entries[i].path| && (depth < |entries[i].path| || entries[i].Directory?)
    ensures !HasFileAbove(tree, entries[i].path)
    ensures AddsDirectories(entries, tree, WithDirectories(tree, entries[i].path, depth))
  {
    var path := entries[i].path;
    var tree' := WithDirectories(tree, path, depth);
    forall k | 0 < k < |path|
      ensures path[..k] in tree ==> tree[path[..k]].DirectoryNode?
    {
      var j := DirectoryAt(entries, tree, i, k);
    }
    forall p | p in tree' && p !in tree
      ensures tree'[p] == DirectoryNode && Directory(p) in entries
    {
      var k :| 0 < k <= depth && p == path[..k];
      var j := DirectoryAt(entries, tree, i, k);
    }
  }

  lemma {:induction false} AddedDirectoriesHoldNothing(entries: seq<FolderEntry>, tree: Tree, tree': Tree)
    requires DistinctPaths(entries) && HoldsOnlyEntries(entries, tree) && AddsDirectories(entries, tree, tree')
    ensures HoldsOnlyEntries(entries, tree')
    ensures forall j | 0 <= j < |entries| && entries[j].File? && entries[j].path !in tree :: entries[j].path !in tree'
  {
    forall p
      ensures IsEntry(entries, tree', p)
    {
      assert IsEntry(entries, tree, p);
      if p in tree' && p !in tree {
        var j :| 0 <= j < |entries| && entries[j] == Directory(p);
      }
    }
  }

  /** New directories change no file. */
  lemma {:induction false} DirectoriesKeepCounts(entries: seq<FolderEntry>, tree: Tree, tree': Tree)
    requires DistinctPaths(entries) && HoldsPrefixes(entries, tree) && AddsDirectories(entries, tree, tree')
    ensures HoldsPrefixes(entries, tree') && CountsOf(entries, tree') == CountsOf(entries, tree)
  {
    AddedDirectoriesHoldNothing(entries, tree, tree');
    forall i | 0 <= i < |entries|
      ensures IsPrefix(entries[i], tree') && BytesOf(entries[i], tree') == BytesOf(entries[i], tree)
    {
      assert IsPrefix(entries[i], tree);
      if entries[i].Directory? && entries[i].path in tree { NodeOfEntry(entries, tree, i); }
    }
  }

  lemma {:induction false} FileWriteHoldsOnlyEntries(entries: seq<FolderEntry>, tree: Tree, i: nat, content: seq<Byte>)
    requires i < |entries| && entries[i].File? && (entries[i].content == [] ==> content == [])
    requires HoldsOnlyEntries(entries, tree)
    ensures HoldsOnlyEntries(entries, tree[entries[i].path := FileNode(content)])
  {
    var tree' := tree[entries[i].path := FileNode(content)];
    forall p
      ensures IsEntry(entries, tree', p)
    {
      assert IsEntry(entries, tree, p);
      if p == entries[i].path { assert MatchesEntry(entries[i], tree'[p]); }
    }
  }

  /** Writing the first `n` bytes of one file changes its count alone. */
  lemma {:induction false} FileWriteSetsCount(entries: seq<FolderEntry>, tree: Tree, i: nat, n: nat)
    requires DistinctPaths(entries) && HoldsPrefixes(entries, tree)
    requires i < |entries| && entries[i].File? && n <= entries[i].Size() && (n == 0 ==> entries[i].Size() == 0)
    ensures var tree' := tree[entries[i].path := FileNode(entries[i].content[..n])];
            HoldsPrefixes(entries, tree') && CountsOf(entries, tree') == CountsOf(entries, tree)[i := n]
  {
    var tree' := tree[entries[i].path := FileNode(entries[i].content[..n])];
    FileWriteHoldsOnlyEntries(entries, tree, i, entries[i].content[..n]);
    forall j | 0 <= j < |entries|
      ensures IsPrefix(entries[j], tree') && BytesOf(entries[j], tree') == if j == i then n else BytesOf(entries[j], tree)
    {
      assert IsPrefix(entries[j], tree);
    }
  }

  lemma {:induction false} TakeThenSlice(bytes: seq<Byte>, from: nat, to: nat)
    requires from <= to <= |bytes|
    ensures bytes[..from] + bytes[from..to] == bytes[..to]
    ensures from == 0 ==> bytes[from..to] == bytes[..to]
  {}

  /** A chunk at file offset `from` fits what is on disk: offset 0 truncates, any other must continue. */
  predicate Fits(entry: FolderEntry, count: nat, from: int) {
    entry.Size() == 0 || from == 0 || count == from
  }

  /** The stream can go on at `offset` with entry `i`. */
  predicate FitsAt(entries: seq<FolderEntry>, counts: seq<nat>, i: nat, offset: nat)
    requires |counts| == |entries|
  {
    i < |entries| ==> Fits(entries[i], counts[i], offset - Start(entries, i))
  }

  /** `written` is what a chunk with the bytes `from` to `to` of entry `i` leaves of a tree of prefixes: it is
      accepted exactly if it fits what is on disk of its file, it changes the count of that file alone, and
      the tree still holds only prefixes. */
  ghost predicate IsWritten(entries: seq<FolderEntry>, tree: Tree, i: nat, from: nat, to: nat, written: (Tree, bool))
    requires i < |entries|
  {
    && (written.1 <==> Fits(entries[i], CountsOf(entries, tree)[i], from))
    && HoldsPrefixes(entries, written.0)
    && CountsOf(entries, written.0) == (if written.1 then CountsOf(entries, tree)[i := to] else CountsOf(entries, tree))
    && (written.1 ==> entries[i].path in written.0)
    && forall p | p in tree :: p in written.0
  }

  lemma {:induction false} UpdateOfSame(counts: seq<nat>, i: nat)
    requires i < |counts|
    ensures counts[i := counts[i]] == counts
  {}

  lemma {:induction false} DirectoryChunk(entries: seq<FolderEntry>, tree: Tree, i: nat)
    requires DistinctPaths(entries) && ListsParents(entries) && HoldsPrefixes(entries, tree)
    requires i < |entries| && entries[i].Directory? && entries[i].path != []
    ensures IsWritten(entries, tree, i, 0, 0, MakeDirectoryAt(tree, entries[i].path))
  {
    var path := entries[i].path;
    DirectoriesAreEntries(entries, tree, i, |path|);
    DirectoriesKeepCounts(entries, tree, WithDirectories(tree, path, |path|));
    assert path[..|path|] == path;
    if path in tree { NodeOfEntry(entries, tree, i); }
    assert BytesOf(entries[i], tree) == 0;
    UpdateOfSame(CountsOf(entries, tree), i);
  }

  /** The tree `WriteFileAt` sees once the directories above the file are there. */
  lemma {:induction false} FilePrepared(entries: seq<FolderEntry>, tree: Tree, i: nat) returns (prepared: Tree, before: seq<Byte>)
    requires DistinctPaths(entries) && ListsParents(entries) && HoldsPrefixes(entries, tree)
    requires i < |entries| && entries[i].File? && entries[i].path != []
    ensures prepared == WithDirectories(tree, entries[i].path, |entries[i].path| - 1)
    ensures !HasFileAbove(tree, entries[i].path) && AddsDirectories(entries, tree, prepared)
    ensures |before| == BytesOf(entries[i], tree) <= entries[i].Size() && before == entries[i].content[..|before|]
    ensures if entries[i].path in prepared then prepared[entries[i].path] == FileNode(before) else before == []
    ensures entries[i].path in prepared && before == [] ==> entries[i].Size() == 0
  {
    prepared := WithDirectories(tree, entries[i].path, |entries[i].path| - 1);
    DirectoriesAreEntries(entries, tree, i, |entries[i].path| - 1);
    DirectoriesKeepCounts(entries, tree, prepared);
    assert CountsOf(entries, prepared)[i] == CountsOf(entries, tree)[i];
    assert IsPrefix(entries[i], prepared);
    if entries[i].path in prepared { NodeOfEntry(entries, prepared, i); }
    before := entries[i].content[..BytesOf(entries[i], tree)];
  }

  lemma {:induction false} WrittenAt(tree: Tree, prepared: Tree, path: seq<string>, before: seq<Byte>, from: nat, body: seq<Byte>)
    requires path != [] && !HasFileAbove(tree, path) && prepared == WithDirectories(tree, path, |path| - 1)
    requires if path in prepared then prepared[path] == FileNode(before) else before == []
    requires from > 0 && path !in prepared ==> from != |before|
    ensures WriteFileAt(tree, path, from, body)
         == if from == 0 then (prepared[path := FileNode(body)], true)
            else if |before| == from then (prepared[path := FileNode(before + body)], true)
            else (prepared, false)
  {}

  lemma {:induction false} WrittenBytes(content: seq<Byte>, before: seq<Byte>, from: nat, to: nat)
    requires from <= to <= |content| && |before| <= |content| && before == content[..|before|]
    ensures from == 0 ==> content[from..to] == content[..to]
    ensures |before| == from ==> before + content[from..to] == content[..to]
  {
    TakeThenSlice(content, from, to);
  }

  /** What `WriteFileAt` computes over a tree of prefixes: the directories above, and then the file if
      the chunk fits. */
  lemma {:induction false} FileChunkWritten(entries: seq<FolderEntry>, tree: Tree, i: nat, from: nat, to: nat)
      returns (prepared: Tree)
    requires DistinctPaths(entries) && ListsParents(entries) && HoldsPrefixes(entries, tree)
    requires i < |entries| && entries[i].File? && entries[i].path != []
    requires from <= to <= entries[i].Size() && (from == to <==> entries[i].Size() == 0)
    ensures AddsDirectories(entries, tree, prepared)
    ensures WriteFileAt(tree, entries[i].path, from, entries[i].content[from..to])
         == if Fits(entries[i], BytesOf(entries[i], tree), from)
            then (prepared[entries[i].path := FileNode(entries[i].content[..to])], true) else (prepared, false)
  {
    var before: seq<Byte>;
    prepared, before := FilePrepared(entries, tree, i);
    var content := entries[i].content;
    WrittenAt(tree, prepared, entries[i].path, before, from, content[from..to]);
    WrittenBytes(content, before, from, to);
  }

  lemma {:induction false} FileChunk(entries: seq<FolderEntry>, tree: Tree, i: nat, from: nat, to: nat)
    requires DistinctPaths(entries) && ListsParents(entries) && HoldsPrefixes(entries, tree)
    requires i < |entries| && entries[i].File? && entries[i].path != []
    requires from <= to <= entries[i].Size() && (from == to <==> entries[i].Size() == 0)
    ensures IsWritten(entries, tree, i, from, to, WriteFileAt(tree, entries[i].path, from, entries[i].content[from..to]))
  {
    var prepared := FileChunkWritten(entries, tree, i, from, to);
    DirectoriesKeepCounts(entries, tree, prepared);
    FileWriteSetsCount(entries, prepared, i, to);
  }

  /** The receiver understands the paths the sender prints. */
  ghost predicate Understands(resolve: Resolver, source: Source) {
    source.FolderSource? ==>
      forall i {:trigger source.entries[i].path} | 0 <= i < |source.entries| ::
        resolve(Join(source.entries[i].path)) == Some(source.entries[i].path)
  }

  /** The resolver of a target root understands safe entry paths within its length limit. */
  lemma {:induction false} RootUnderstands(root: Path, source: Source)
    requires IsTargetRoot(root)
    requires source.FolderSource? ==>
      forall i | 0 <= i < |source.entries| ::
        IsEntryPath(source.entries[i].path) && |Join(source.entries[i].path)| <= MAX_RELATIVE_PATH_BYTES
    ensures Understands(RootResolver(root), source)
  {
    if source.FolderSource? {
      forall i | 0 <= i < |source.entries|
        ensures RootResolver(root)(Join(source.entries[i].path)) == Some(source.entries[i].path)
      {
        RelocatesEntry(root, source.entries[i].path);
      }
    }
  }

  /** What `WriteFolderChunk` does with the path text of entry `i`. */
  lemma {:induction false} Resolved(resolve: Resolver, entries: seq<FolderEntry>, tree: Tree, chunk: TransferFrame, i: nat,
        from: nat, to: nat)
    requires EntryChunkOf(entries, chunk, i) && resolve(Join(entries[i].path)) == Some(entries[i].path)
    requires from == chunk.target.value.fileOffset && to == from + |chunk.body|
    ensures from <= to <= entries[i].Size() && (from == to <==> entries[i].Size() == 0)
    ensures WriteFolderChunk(resolve, tree, chunk.target, chunk.body)
         == if entries[i].Directory? then MakeDirectoryAt(tree, entries[i].path)
            else WriteFileAt(tree, entries[i].path, from, entries[i].content[from..to])
  {}

  /** An honest folder chunk is written like that. */
  lemma {:induction false} FolderChunkWritten(resolve: Resolver, entries: seq<FolderEntry>, tree: Tree,
        chunk: TransferFrame, i: nat, from: nat, to: nat)
    requires FolderSource(entries).WellFormed() && EntryChunkOf(entries, chunk, i) && HoldsPrefixes(entries, tree)
    requires resolve(Join(entries[i].path)) == Some(entries[i].path)
    requires from == chunk.target.value.fileOffset && to == from + |chunk.body|
    ensures IsWritten(entries, tree, i, from, to, WriteFolderChunk(resolve, tree, chunk.target, chunk.body))
  {
    Resolved(resolve, entries, tree, chunk, i, from, to);
    if entries[i].Directory? {
      DirectoryChunk(entries, tree, i);
    } else {
      FileChunk(entries, tree, i, from, to);
    }
  }

  // ---- Sums ----

  function Sum(counts: seq<nat>, n: nat): nat
    requires n <= |counts|
  {
    if n == 0 then 0 else Sum(counts, n - 1) + counts[n - 1]
  }

  /** The files of the first `n` entries. */
  ghost function FilesUpTo(entries: seq<FolderEntry>, tree: Tree, n: nat): map<seq<string>, seq<Byte>>
    requires n <= |entries|
  {
    if n == 0 then map[]
    else
      var entry, before := entries[n - 1], FilesUpTo(entries, tree, n - 1);
      if entry.path in tree && tree[entry.path].FileNode? then before[entry.path := tree[entry.path].content] else before
  }

  lemma {:induction false} FilesUpToHas(entries: seq<FolderEntry>, tree: Tree, n: nat, path: seq<string>)
    requires DistinctPaths(entries) && n <= |entries|
    ensures path in FilesUpTo(entries, tree, n)
       <==> path in tree && tree[path].FileNode? && exists i :: 0 <= i < n && entries[i].path == path
    ensures path in FilesUpTo(entries, tree, n) ==> FilesUpTo(entries, tree, n)[path] == tree[path].content
  {
    if n > 0 {
      FilesUpToHas(entries, tree, n - 1, path);
      if entries[n - 1].path == path {
        assert exists i :: 0 <= i < n && entries[i].path == path;
      }
    }
  }

  lemma {:induction false} FilesUpToSize(entries: seq<FolderEntry>, tree: Tree, n: nat)
    requires DistinctPaths(entries) && n <= |entries|
    ensures SumLengths(FilesUpTo(entries, tree, n)) == Sum(CountsOf(entries, tree), n)
  {
    if n > 0 {
      FilesUpToSize(entries, tree, n - 1);
      FilesUpToHas(entries, tree, n - 1, entries[n - 1].path);
      if entries[n - 1].path in tree && tree[entries[n - 1].path].FileNode? {
        SumLengthsUpdate(FilesUpTo(entries, tree, n - 1), entries[n - 1].path, tree[entries[n - 1].path].content);
      }
    }
  }

  /** What the receiver measures is the sum of the counts. */
  lemma {:induction false} TreeSizeIsSum(entries: seq<FolderEntry>, tree: Tree)
    requires DistinctPaths(entries) && HoldsOnlyEntries(entries, tree)
    ensures TreeSize(tree) == Sum(CountsOf(entries, tree), |entries|)
  {
    var files := FilesUpTo(entries, tree, |entries|);
    FilesUpToSize(entries, tree, |entries|);
    forall path
      ensures path in files <==> path in Files(tree)
      ensures path in files ==> files[path] == Files(tree)[path]
    {
      FilesUpToHas(entries, tree, |entries|, path);
      assert IsEntry(entries, tree, path);
    }
    assert files == Files(tree);
  }

  lemma {:induction false} SumWithin(entries: seq<FolderEntry>, counts: seq<nat>, n: nat)
    requires n <= |entries| == |counts| && forall i | 0 <= i < |entries| :: counts[i] <= entries[i].Size()
    ensures Sum(counts, n) <= Start(entries, n)
  {
    if n > 0 { SumWithin(entries, counts, n - 1); }
  }

  lemma {:induction false} CountsWithin(entries: seq<FolderEntry>, tree: Tree)
    requires DistinctPaths(entries) && HoldsPrefixes(entries, tree)
    ensures forall i | 0 <= i < |entries| :: CountsOf(entries, tree)[i] <= entries[i].Size()
    ensures TreeSize(tree) <= FolderSource(entries).Size()
  {
    forall i | 0 <= i < |entries|
      ensures CountsOf(entries, tree)[i] <= entries[i].Size()
    {
      assert IsPrefix(entries[i], tree);
      if entries[i].path in tree { NodeOfEntry(entries, tree, i); }
    }
    TreeSizeIsSum(entries, tree);
    SumWithin(entries, CountsOf(entries, tree), |entries|);
  }

  // ---- Prefixes of the stream ----

  /** How much of entry `i` the first `received` bytes of the stream cover. */
  function CoveredAt(entries: seq<FolderEntry>, i: nat, received: nat): nat
    requires i < |entries|
  {
    Covered(Start(entries, i), entries[i].Size(), received)
  }

  function Covered(start: nat, size: nat, received: nat): nat {
    if received <= start then 0 else if start + size <= received then size else received - start
  }

  /** The counts of exactly the first `received` bytes. */
  ghost predicate ArePrefix(entries: seq<FolderEntry>, counts: seq<nat>, received: nat) {
    |counts| == |entries| && forall i {:trigger counts[i]} | 0 <= i < |counts| :: counts[i] == CoveredAt(entries, i, received)
  }

  lemma {:induction false} PrefixSum(entries: seq<FolderEntry>, counts: seq<nat>, received: nat, n: nat)
    requires ArePrefix(entries, counts, received) && n <= |entries|
    ensures Sum(counts, n) == if received <= Start(entries, n) then received else Start(entries, n)
  {
    if n > 0 { PrefixSum(entries, counts, received, n - 1); }
  }

  /** `tree` holds exactly the stream up to `received`. */
  ghost predicate HoldsExactly(entries: seq<FolderEntry>, tree: Tree, received: nat) {
    && HoldsPrefixes(entries, tree) && received <= FolderSource(entries).Size()
    && ArePrefix(entries, CountsOf(entries, tree), received)
  }

  /** Then `received` is what the receiver measures. */
  lemma {:induction false} ExactSize(entries: seq<FolderEntry>, tree: Tree, received: nat)
    requires DistinctPaths(entries) && HoldsExactly(entries, tree, received)
    ensures TreeSize(tree) == received
  {
    TreeSizeIsSum(entries, tree);
    PrefixSum(entries, CountsOf(entries, tree), received, |entries|);
  }

  lemma {:induction false} EmptyTree(entries: seq<FolderEntry>)
    ensures HoldsExactly(entries, map[], 0)
  {
    assert forall i | 0 <= i < |entries| :: IsPrefix(entries[i], map[]);
  }

  /** Nothing of the first `n` entries is missing. */
  ghost predicate AllWhole(entries: seq<FolderEntry>, counts: seq<nat>, n: nat)
    requires n <= |entries| == |counts|
  {
    forall i | 0 <= i < n :: counts[i] == entries[i].Size()
  }

  // ---- A stream sent again from its start ----

  /** A tree that held the first `before` bytes, after its first `again` bytes were sent again: a file is
      truncated when its first chunk arrives, later files are still as they were. */
  ghost predicate AreRewritten(entries: seq<FolderEntry>, counts: seq<nat>, before: nat, again: nat) {
    |counts| == |entries| && forall i {:trigger counts[i]} | 0 <= i < |counts| ::
      counts[i] == CoveredAt(entries, i, if Start(entries, i) < again then again else before)
  }

  lemma {:induction false} CoveredStep(entries: seq<FolderEntry>, before: nat, i: nat, from: nat, to: nat, j: nat)
    requires i < |entries| && j < |entries| && i != j && from < to <= entries[i].Size()
    ensures var at := Start(entries, i);
            CoveredAt(entries, j, if Start(entries, j) < at + from then at + from else before)
            == CoveredAt(entries, j, if Start(entries, j) < at + to then at + to else before)
  {
    if j < i { StartMonotone(entries, j, i); } else { StartMonotone(entries, i, j); }
  }

  /** The next chunk fits, and moves the second number on. */
  lemma {:induction false} RewriteGoesOn(entries: seq<FolderEntry>, counts: seq<nat>, before: nat, i: nat, from: nat,
        to: nat)
    requires i < |entries| && from < to <= entries[i].Size()
    requires AreRewritten(entries, counts, before, Start(entries, i) + from)
    ensures Fits(entries[i], counts[i], from)
    ensures AreRewritten(entries, counts[i := to], before, Start(entries, i) + to)
  {
    forall j | 0 <= j < |entries|
      ensures counts[i := to][j] == CoveredAt(entries, j, if Start(entries, j) < Start(entries, i) + to then Start(entries, i) + to else before)
    {
      if j != i { CoveredStep(entries, before, i, from, to, j); }
    }
  }

  lemma {:induction false} CoveredAgain(entries: seq<FolderEntry>, before: nat, k: nat, j: nat)
    requires k <= |entries| && j < |entries|
    ensures var at := Start(entries, k);
            CoveredAt(entries, j, if Start(entries, j) < at then at else before)
            == CoveredAt(entries, j, if before < at then at else before)
  {
    if j < k { StartMonotone(entries, j, k); } else if k < j { StartMonotone(entries, k, j); }
  }

  /** At the end of an entry the tree is a prefix again, of whichever was longer. */
  lemma {:induction false} RewriteAtBoundary(entries: seq<FolderEntry>, counts: seq<nat>, before: nat, k: nat)
    requires k <= |entries| && AreRewritten(entries, counts, before, Start(entries, k))
    ensures ArePrefix(entries, counts, if before < Start(entries, k) then Start(entries, k) else before)
  {
    forall j {:trigger counts[j]} | 0 <= j < |counts|
      ensures counts[j] == CoveredAt(entries, j, if before < Start(entries, k) then Start(entries, k) else before)
    {
      CoveredAgain(entries, before, k, j);
    }
  }

  /** The entry that holds the byte before position `n`. */
  lemma {:induction false} EntryBefore(entries: seq<FolderEntry>, n: nat, first: nat, end: nat) returns (i: nat)
    requires first < end <= |entries| && Start(entries, first) < n <= Start(entries, end)
    ensures first <= i < end && Start(entries, i) < n <= Start(entries, i + 1)
    decreases end
  {
    i := end - 1;
    if Start(entries, i) >= n {
      i := EntryBefore(entries, n, first, i);
    }
  }

  /** With nothing on disk beyond the entry that was reached, the tree is a prefix too. */
  lemma {:induction false} RewriteReachesFurther(entries: seq<FolderEntry>, counts: seq<nat>, before: nat, again: nat,
        i: nat)
    requires i < |entries| && Start(entries, i) < again && before <= Start(entries, i) + entries[i].Size()
    requires again <= Start(entries, i) + entries[i].Size() && AreRewritten(entries, counts, before, again)
    ensures ArePrefix(entries, counts, again)
  {
    forall j {:trigger counts[j]} | 0 <= j < |counts|
      ensures counts[j] == CoveredAt(entries, j, again)
    {
      if j < i { StartMonotone(entries, j, i); } else if i < j { StartMonotone(entries, i, j); }
    }
  }

  /** A file cut short before one that is not empty: no prefix looks like this. */
  lemma {:induction false} GapIsNoPrefix(entries: seq<FolderEntry>, counts: seq<nat>, i: nat, j: nat, received: nat)
    requires i < j < |entries| == |counts| && counts[i] < entries[i].Size() && counts[j] > 0
    ensures !ArePrefix(entries, counts, received)
  {
    StartMonotone(entries, i, j);
  }

  lemma {:induction false} RewriteLeavesGap(entries: seq<FolderEntry>, counts: seq<nat>, before: nat, again: nat, i: nat)
      returns (j: nat)
    requires i < |entries| && Start(entries, i + 1) < before <= Start(entries, |entries|)
    requires Start(entries, i) < again < Start(entries, i + 1) && AreRewritten(entries, counts, before, again)
    ensures i < j < |entries| && counts[i] < entries[i].Size() && counts[j] > 0
  {
    j := EntryBefore(entries, before, i + 1, |entries|);
    StartMonotone(entries, i, j);
  }

  /** Sent again up to a byte of entry `i`, the tree is a prefix of the stream if and only if that byte is
      the entry's last, or nothing beyond the entry had been on disk. */
  lemma {:induction false} RewriteIsPrefixIff(entries: seq<FolderEntry>, counts: seq<nat>, before: nat, again: nat, i: nat)
    requires before <= Start(entries, |entries|) && AreRewritten(entries, counts, before, again)
    requires i < |entries| && Start(entries, i) < again <= Start(entries, i + 1)
    ensures (exists received: nat :: ArePrefix(entries, counts, received))
       <==> before <= Start(entries, i + 1) || again == Start(entries, i + 1)
  {
    if again == Start(entries, i + 1) {
      RewriteAtBoundary(entries, counts, before, i + 1);
    } else if before <= Start(entries, i + 1) {
      RewriteReachesFurther(entries, counts, before, again, i);
    } else {
      var j := RewriteLeavesGap(entries, counts, before, again, i);
      forall received: nat
        ensures !ArePrefix(entries, counts, received)
      {
        GapIsNoPrefix(entries, counts, i, j, received);
      }
    }
  }

  /** Stopping here leaves a prefix: the position is at the end of an entry, or no later file is on disk. */
  ghost predicate CleanPosition(entries: seq<FolderEntry>, counts: seq<nat>, offset: nat)
    requires |counts| == |entries|
  {
    || (exists k :: 0 <= k <= |entries| && Start(entries, k) == offset)
    || forall j {:trigger counts[j]} | 0 <= j < |entries| && offset <= Start(entries, j) :: counts[j] == 0
  }

  lemma {:induction false} CleanInside(entries: seq<FolderEntry>, counts: seq<nat>, before: nat, again: nat, i: nat)
    requires before <= Start(entries, |entries|) && AreRewritten(entries, counts, before, again)
    requires i < |entries| && Start(entries, i) < again < Start(entries, i + 1)
    ensures CleanPosition(entries, counts, again) <==> before <= Start(entries, i + 1)
  {
    forall k | 0 <= k <= |entries|
      ensures Start(entries, k) != again
    {
      if k < i { StartMonotone(entries, k, i); } else if i + 1 < k { StartMonotone(entries, i + 1, k); }
    }
    if before <= Start(entries, i + 1) {
      forall j {:trigger counts[j]} | 0 <= j < |entries| && again <= Start(entries, j)
        ensures counts[j] == 0
      {
        if j < i { StartMonotone(entries, j, i); } else if i < j { StartMonotone(entries, i, j); }
      }
    } else {
      var j := RewriteLeavesGap(entries, counts, before, again, i);
      StartMonotone(entries, i, j);
    }
  }

  /** The same without reference to what was on disk before. */
  lemma {:induction false} RewriteIsCleanIff(entries: seq<FolderEntry>, counts: seq<nat>, before: nat, again: nat)
    requires before <= Start(entries, |entries|) && again <= Start(entries, |entries|)
    requires AreRewritten(entries, counts, before, again)
    ensures (exists received: nat :: ArePrefix(entries, counts, received)) <==> CleanPosition(entries, counts, again)
  {
    if again == 0 {
      assert Start(entries, 0) == again;
      RewriteAtBoundary(entries, counts, before, 0);
    } else {
      var i := EntryBefore(entries, again, 0, |entries|);
      RewriteIsPrefixIff(entries, counts, before, again, i);
      if again < Start(entries, i + 1) { CleanInside(entries, counts, before, again, i); }
    }
  }
}
