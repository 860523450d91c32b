/** The receiving side of one transfer: what is on disk at its payload path and how offers, chunks
    and complete frames change it (the transfer cases of `handleIncomingPeerFrame` and the
    `existingIncoming...` and `prepareIncoming...` helpers of src/main/app_runtime.cpp). */
module TransferReceiver {
  import opened Prelude
  import opened FolderPaths
  import opened TransferProducer

  datatype Node = DirectoryNode | FileNode(content: seq<Byte>)

  /** The contents of a target directory, by path below it. */
  type Tree = map<seq<string>, Node>

  datatype Target = Missing | PlainFile(content: seq<Byte>) | FolderTree(tree: Tree)

  /** The fields of `PendingIncomingTransfer` that decide how frames are handled. */
  datatype PendingIncoming = PendingIncoming(expectedSize: nat, receivedSize: nat, folderTransfer: bool)

  // ---- Sizes on disk ----

  ghost function SumLengths(files: map<seq<string>, seq<Byte>>): nat {
    if files == map[] then 0
    else
      var path :| path in files;
      |files[path]| + SumLengths(files - {path})
  }

  ghost function Files(tree: Tree): map<seq<string>, seq<Byte>> {
    map path | path in tree && tree[path].FileNode? :: tree[path].content
  }

  ghost function TreeSize(tree: Tree): nat {
    SumLengths(Files(tree))
  }

  lemma {:induction false} SumLengthsRemove(files: map<seq<string>, seq<Byte>>, path: seq<string>)
    requires path in files
    ensures SumLengths(files) == |files[path]| + SumLengths(files - {path})
    decreases |files|
  {
    var first :| first in files && SumLengths(files) == |files[first]| + SumLengths(files - {first});
    if first != path {
      SumLengthsRemove(files - {first}, path);
      SumLengthsRemove(files - {path}, first);
      assert files - {first} - {path} == files - {path} - {first};
    }
  }

  lemma {:induction false} SumLengthsUpdate(files: map<seq<string>, seq<Byte>>, path: seq<string>, content: seq<Byte>)
    ensures SumLengths(files[path := content]) + (if path in files then |files[path]| else 0) == SumLengths(files) + |content|
  {
    SumLengthsRemove(files[path := content], path);
    assert files[path := content] - {path} == files - {path};
    if path in files { SumLengthsRemove(files, path); } else { assert files - {path} == files; }
  }

  /** `existingIncomingFolderPayloadSize`: adds up the files and stops early at the expected size. */
  method ExistingIncomingFolderPayloadSize(tree: Tree, expectedSize: nat) returns (size: nat)
    ensures size == Min(TreeSize(tree), expectedSize)
  {
    var left := map path | path in tree && tree[path].FileNode? :: tree[path].content;
    assert left == Files(tree);
    var receivedSize := 0;
    while left != map[]
      invariant receivedSize + SumLengths(left) == TreeSize(tree)
      decreases |left|
    {
      var path :| path in left;
      SumLengthsRemove(left, path);
      receivedSize := receivedSize + |left[path]|;
      left := left - {path};
      if receivedSize >= expectedSize {
        return expectedSize;
      }
    }
    return Min(receivedSize, expectedSize);
  }

  /** `existingIncomingPayloadSize` and its folder variant: an oversized plain payload is removed. */
  ghost function ExistingSize(target: Target, folderTransfer: bool, expectedSize: nat): (Target, nat) {
    if folderTransfer then
      (target, if target.FolderTree? then Min(TreeSize(target.tree), expectedSize) else 0)
    else if target.PlainFile? then
      if |target.content| > expectedSize then (Missing, 0) else (target, |target.content|)
    else (target, 0)
  }

  // ---- Preparing the target ----

  /** `prepareIncomingFolderTransferRootForResume`: an existing directory is kept as it is. */
  function PrepareFolderRoot(target: Target): Target {
    if target.FolderTree? then target else FolderTree(map[])
  }

  /** `createIncomingPayloadFile` truncates; a directory in its place makes it throw. */
  function CreatePayloadFile(target: Target): Option<Target> {
    if target.FolderTree? then None else Some(PlainFile([]))
  }

  datatype Prepared = Prepared(pending: Option<PendingIncoming>, target: Target)

  /** Accepting an invitation: resumes from what is on disk if the transfer was interrupted. */
  ghost function Accept(target: Target, folderTransfer: bool, interrupted: bool, expectedSize: nat): Prepared {
    var (found, size) := if interrupted then ExistingSize(target, folderTransfer, expectedSize) else (target, 0);
    var prepared := if folderTransfer then Some(PrepareFolderRoot(found))
                    else if interrupted then Some(found) else CreatePayloadFile(found);
    if prepared.None? then Prepared(None, found)
    else Prepared(Some(PendingIncoming(expectedSize, size, folderTransfer)), prepared.value)
  }

  /** Handling an offer. `resume` holds if a pending entry exists, or if the offer asks to resume and
      an interrupted part was found; only then the disk is measured. */
  ghost function ReceiveOffer(target: Target, folderTransfer: bool, resume: bool, fileSize: nat): Prepared {
    var (found, size) := if resume then ExistingSize(target, folderTransfer, fileSize) else (target, 0);
    var prepared := if folderTransfer then Some(PrepareFolderRoot(found))
                    else if size == 0 then CreatePayloadFile(found) else Some(found);
    if prepared.None? then Prepared(None, found)
    else Prepared(Some(PendingIncoming(fileSize, size, folderTransfer)), prepared.value)
  }

  // ---- Chunks ----

  /** Turns the path text of a chunk into the place below the target root, if it is acceptable. */
  type Resolver = string -> Option<seq<string>>

  /** The receiver's resolver for a target root, `resolveIncomingFolderEntryPath`. */
  function RootResolver(root: Path): Resolver
    requires IsTargetRoot(root)
  {
    text =>
      var target := Resolve(root, text);
      if target.None? || |target.value.components| < |root.components| then None
      else Some(target.value.components[|root.components|..])
  }

  predicate HasFileAbove(tree: Tree, path: seq<string>) {
    exists k | 0 < k < |path| :: path[..k] in tree && tree[path[..k]].FileNode?
  }

  /** `create_directories` on the first `depth` components of `path`. */
  function WithDirectories(tree: Tree, path: seq<string>, depth: nat): Tree
    requires depth <= |path|
  {
    var directories := set k | 0 < k <= depth :: path[..k];
    tree + map directory | directory in directories && directory !in tree :: DirectoryNode
  }

  function MakeDirectoryAt(tree: Tree, path: seq<string>): (Tree, bool) {
    if HasFileAbove(tree, path) || (path in tree && tree[path].FileNode?) then (tree, false)
    else (WithDirectories(tree, path, |path|), true)
  }

  /** Offset 0 truncates; any other offset must be the size of the existing file. */
  function WriteFileAt(tree: Tree, path: seq<string>, fileOffset: nat, body: seq<Byte>): (Tree, bool) {
    if HasFileAbove(tree, path) || path == [] then (tree, false)
    else
      var prepared := WithDirectories(tree, path, |path| - 1);
      if path in prepared && prepared[path].DirectoryNode? then (prepared, false)
      else if fileOffset == 0 then (prepared[path := FileNode(body)], true)
      else if path !in prepared || |prepared[path].content| != fileOffset then (prepared, false)
      else (prepared[path := FileNode(prepared[path].content + body)], true)
  }

  /** `writeIncomingFolderTransferChunk`; the flag tells whether it returned normally. */
  function WriteFolderChunk(resolve: Resolver, tree: Tree, target: Option<FolderTarget>, body: seq<Byte>): (Tree, bool)
  {
    if target.None? then (tree, false)
    else
      var FolderTarget(text, fileOffset, directory) := target.value;
      var key := resolve(text);
      if key.None? || (directory && body != []) then (tree, false)
      else if directory then MakeDirectoryAt(tree, key.value)
      else WriteFileAt(tree, key.value, fileOffset, body)
  }

  /** Writing a chunk's body, before the size check. */
  function WriteChunk(resolve: Resolver, target: Target, pending: PendingIncoming, chunk: TransferFrame): (Target, bool)
    requires chunk.Chunk?
  {
    if pending.folderTransfer then
      if target.PlainFile? then (target, false)
      else
        var tree := if target.FolderTree? then target.tree else map[];
        var (tree', ok) := WriteFolderChunk(resolve, tree, chunk.target, chunk.body);
        (if tree' == tree && target.Missing? && !ok then Missing else FolderTree(tree'), ok)
    else if target.FolderTree? then (target, false)
    else (PlainFile((if target.PlainFile? then target.content else []) + chunk.body), true)
  }

  /** The chunk case: out of sequence nothing is written; a body past the expected size is written
      before the transfer fails. `None` means the handler threw. */
  function ReceiveChunk(resolve: Resolver, target: Target, pending: PendingIncoming, chunk: TransferFrame): Prepared
    requires chunk.Chunk?
  {
    if pending.receivedSize != chunk.offset then Prepared(None, target)
    else
      var (target', ok) := WriteChunk(resolve, target, pending, chunk);
      var receivedSize := pending.receivedSize + |chunk.body|;
      if !ok || receivedSize > pending.expectedSize then Prepared(None, target')
      else Prepared(Some(pending.(receivedSize := receivedSize)), target')
  }

  /** The complete case is accepted only if received, expected and announced sizes agree. */
  predicate AcceptsComplete(pending: PendingIncoming, completeSize: nat) {
    pending.receivedSize == pending.expectedSize && completeSize == pending.expectedSize
  }

  // ---- What a payload counts for ----

  /** A plain payload that a resumed transfer of this size goes on from. */
  predicate IsGoneOnFrom(target: Target, size: nat) {
    target.PlainFile? && |target.content| <= size
  }

  /** Accepting an interrupted plain transfer goes on from a payload that fits and counts it in full; a larger one
      is gone and counts for nothing. Accepting a new one starts from an empty file, unless a directory is there. */
  lemma {:induction false} AcceptedPlainStarts(target: Target, interrupted: bool, size: nat)
    ensures var accepted := Accept(target, false, interrupted, size);
      if interrupted then
        && accepted.pending == Some(PendingIncoming(size, if IsGoneOnFrom(target, size) then |target.content| else 0, false))
        && accepted.target == if target.PlainFile? && !IsGoneOnFrom(target, size) then Missing else target
      else if target.FolderTree? then accepted == Prepared(None, target)
      else accepted == Prepared(Some(PendingIncoming(size, 0, false)), PlainFile([]))
  {
  }

  /** An offer to resume goes on from a plain payload that fits; any other offer, and one that finds nothing, starts
      from an empty file, unless a directory is there. */
  lemma {:induction false} OfferedPlainStarts(target: Target, resume: bool, size: nat)
    ensures var offered := ReceiveOffer(target, false, resume, size);
      if target.FolderTree? then offered == Prepared(None, target)
      else
        var payload := if resume && IsGoneOnFrom(target, size) then target.content else [];
        offered == Prepared(Some(PendingIncoming(size, |payload|, false)), PlainFile(payload))
  {
  }

  /** A folder transfer, accepted or offered, keeps the folder that is there; it counts its files, up to the size of
      the transfer, only when it resumes. */
  lemma {:induction false} FolderStarts(target: Target, resume: bool, size: nat)
    ensures Accept(target, true, resume, size) == ReceiveOffer(target, true, resume, size)
    ensures var started := Accept(target, true, resume, size);
      && started.target == (if target.FolderTree? then target else FolderTree(map[]))
      && started.pending.Some? && started.pending.value.expectedSize == size && started.pending.value.folderTransfer
      && var counted := started.pending.value.receivedSize;
      if !resume || !target.FolderTree? then counted == 0
      else counted <= size && counted <= TreeSize(target.tree) && (counted == size || counted == TreeSize(target.tree))
  {
  }
}
