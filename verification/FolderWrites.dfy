/** What one chunk of a folder transfer does below the target root, whatever a peer sends
    (`writeIncomingFolderTransferChunk` of src/main/app_runtime.cpp). */
module FolderWrites {
  import opened Prelude
  import opened FolderPaths
  import opened TransferProducer
  import opened TransferReceiver

  // ---- Paths below the root ----

  /** The receiver's resolver leads below the root exactly where the resolved text does. */
  lemma {:induction false} ResolverLeads(root: Path, text: string, below: seq<string>)
    requires IsTargetRoot(root)
    ensures RootResolver(root)(text) == Some(below)
       <==> Resolve(root, text) == Some(root.(components := root.components + below))
  {
    AcceptedStaysInside(root, text);
    var target := Resolve(root, text);
    if target.Some? {
      var n := |root.components|;
      assert target.value.components == root.components + target.value.components[n..];
      assert (root.components + below)[n..] == below;
    }
  }

  // ---- One chunk ----

  predicate IsFileAt(tree: Tree, path: seq<string>) {
    path in tree && tree[path].FileNode?
  }

  predicate IsDirectoryAt(tree: Tree, path: seq<string>) {
    path in tree && tree[path].DirectoryNode?
  }

  /** A file stands where the path needs a directory. */
  ghost predicate IsBlocked(tree: Tree, path: seq<string>) {
    exists k :: 0 < k < |path| && IsFileAt(tree, path[..k])
  }

  /** A directory chunk carries no bytes and needs a free way; a file chunk needs a name, a free way and place, and
      starts at 0 or where the file ends. */
  ghost predicate CanWrite(tree: Tree, path: seq<string>, fileOffset: nat, directory: bool, body: seq<Byte>) {
    && !IsBlocked(tree, path)
    && if directory then body == [] && !IsFileAt(tree, path)
       else
         && path != [] && !IsDirectoryAt(tree, path)
         && (fileOffset == 0 || (IsFileAt(tree, path) && |tree[path].content| == fileOffset))
  }

  /** A chunk is written exactly if it names a place, the place is acceptable and it can be written there. */
  lemma {:induction false} ChunkIsWrittenIff(resolve: Resolver, tree: Tree, target: Option<FolderTarget>, body: seq<Byte>)
    ensures WriteFolderChunk(resolve, tree, target, body).1 <==>
              && target.Some? && resolve(target.value.path).Some?
              && CanWrite(tree, resolve(target.value.path).value, target.value.fileOffset, target.value.directory, body)
  {
    if target.Some? && resolve(target.value.path).Some? {
      var path := resolve(target.value.path).value;
      BlockedIff(tree, path);
      if !target.value.directory && path != [] { DirectoriesAbove(tree, path, path); }
    }
  }

  lemma {:induction false} BlockedIff(tree: Tree, path: seq<string>)
    ensures HasFileAbove(tree, path) <==> IsBlocked(tree, path)
  {
    if k :| 0 < k < |path| && IsFileAt(tree, path[..k]) {
      assert path[..k] in tree && tree[path[..k]].FileNode?;
    }
    if k :| 0 < k < |path| && path[..k] in tree && tree[path[..k]].FileNode? {
      assert IsFileAt(tree, path[..k]);
    }
  }

  /** Making the directories above a path touches neither the path nor what is there. */
  lemma {:induction false} DirectoriesAbove(tree: Tree, path: seq<string>, other: seq<string>)
    requires path != []
    ensures var made := WithDirectories(tree, path, |path| - 1);
      && (other in tree ==> other in made && made[other] == tree[other])
      && (other in made && other !in tree ==> IsDirectoryAt(made, other) && exists k :: 0 < k < |path| && other == path[..k])
      && (forall k | 0 < k < |path| :: path[..k] in made)
      && (path in made <==> path in tree)
  {
  }

  /** What is at any place after a chunk was written to `path`: a file grows at its end, or starts again from offset
      0, the directories on the way are made, and all else stays. */
  ghost predicate IsWrittenAt(tree: Tree, path: seq<string>, fileOffset: nat, directory: bool, body: seq<Byte>, tree': Tree,
                              other: seq<string>)
  {
    if !directory && other == path then
      && IsFileAt(tree', path)
      && tree'[path].content == (if IsFileAt(tree, path) && fileOffset > 0 then tree[path].content + body else body)
    else if IsOnTheWay(path, other, directory) && other !in tree then IsDirectoryAt(tree', other)
    else (other in tree' <==> other in tree) && (other in tree ==> tree'[other] == tree[other])
  }

  /** The directory itself or one above. */
  ghost predicate IsOnTheWay(path: seq<string>, other: seq<string>, directory: bool) {
    exists k :: 0 < k <= |path| && other == path[..k] && (k < |path| || directory)
  }

  lemma {:induction false} ChunkIsWritten(resolve: Resolver, tree: Tree, target: FolderTarget, body: seq<Byte>,
        other: seq<string>)
    requires WriteFolderChunk(resolve, tree, Some(target), body).1
    ensures resolve(target.path).Some?
    ensures IsWrittenAt(tree, resolve(target.path).value, target.fileOffset, target.directory, body,
                        WriteFolderChunk(resolve, tree, Some(target), body).0, other)
  {
  }

  /** A chunk that is not written changes no file; at most directories above its place are new. */
  lemma {:induction false} RefusedChunkKeepsFiles(resolve: Resolver, tree: Tree, target: Option<FolderTarget>, body: seq<Byte>)
    requires !WriteFolderChunk(resolve, tree, target, body).1
    ensures Files(WriteFolderChunk(resolve, tree, target, body).0) == Files(tree)
  {
  }

  // ---- The payload as a whole ----

  /** A chunk of a plain transfer is appended unless a directory is in its place; a chunk of a folder is written below
      the folder, made if it is missing, unless a file is in its place. */
  lemma {:induction false} PayloadTakes(resolve: Resolver, target: Target, pending: PendingIncoming, chunk: TransferFrame)
    requires chunk.Chunk?
    ensures var (target', ok) := WriteChunk(resolve, target, pending, chunk);
      if !pending.folderTransfer then
        if target.FolderTree? then !ok && target' == target
        else ok && target' == PlainFile((if target.PlainFile? then target.content else []) + chunk.body)
      else if target.PlainFile? then !ok && target' == target
      else
        var tree := if target.FolderTree? then target.tree else map[];
        var written := WriteFolderChunk(resolve, tree, chunk.target, chunk.body);
        && ok == written.1
        && (if target'.FolderTree? then target'.tree == written.0 else target' == target && !ok && written.0 == map[])
  {
  }
}
