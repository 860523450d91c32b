/** One transfer between an honest sender and a receiver, over any number of sessions: the receiver accepts
    or is asked to resume, the sender streams from the offset of an accept frame or on its own from the
    start, the connection may be cut after any frame, and the receiver may be restarted. */
module ResumeProtocol {
  import opened Prelude
  import opened TransferStates
  import opened TransferSource
  import opened TransferProducer
  import opened TransferReceiver
  import opened TransferProgress

  /** The receiver's record of the part. */
  datatype Part = Part(state: TransferState, fileSize: Option<nat>)

  /** `accepts` holds the offsets of the accept frames on their way, `stream` the position of the sender's
      running session, and `completed` the payloads whose complete frame was accepted. */
  datatype Protocol = Protocol(
    part: Part, pending: Option<PendingIncoming>, target: Target, accepts: seq<nat>, stream: Option<Cursor>,
    completed: seq<Target>)

  datatype Event =
    | AcceptInvitation
    | AcceptLost(k: nat, recoverable: bool)
    | AcceptDropped(k: nat)
    | ResumeRequest
    | StartSending(k: nat)
    | SenderSends
    | Deliver(want: nat)
    | Cut
    | OtherStreamClosed
    | ReceiverRestarted
    | HistoryLoaded

  function Initial(invitedSize: Option<nat>): Protocol {
    Protocol(Part(Offered, invitedSize), None, Missing, [], None, [])
  }

  // ---- Updates of the record ----

  function WithState(part: Part, state: TransferState): Part {
    part.(state := Updated(part.state, state))
  }

  /** A whole part update also rewrites the recorded size. */
  function WithUpdate(part: Part, state: TransferState, fileSize: nat): Part {
    if ShouldIgnoreUpdate(part.state, state) then part else Part(state, Some(fileSize))
  }

  /** `interruptPendingIncomingTransfers`: every pending entry goes, whichever stream was closed. */
  function Interrupt(s: Protocol): Protocol {
    if s.pending.None? then s
    else s.(part := WithUpdate(s.part, Interrupted, s.pending.value.expectedSize), pending := None)
  }

  /** `failIncomingTransferFromFrame`. */
  function Fail(s: Protocol): Protocol {
    if s.pending.None? then s
    else s.(part := WithUpdate(s.part, Failed, s.pending.value.expectedSize), pending := None)
  }

  /** A whole part update changes state and size together, if the state may follow the part's, and else nothing. */
  lemma {:induction false} UpdateGives(part: Part, state: TransferState, fileSize: nat)
    ensures WithUpdate(part, state, fileSize) == if state in Followers(part.state) then Part(state, Some(fileSize)) else part
  {
  }

  // ---- Frames at the receiver ----

  /** Without a pending entry the offer reuses the path of an interrupted part and takes a fresh path
      otherwise; a part left transferring without an entry counts as interrupted. */
  ghost function OnOffer(source: Source, s: Protocol, resumeRequest: bool): Protocol {
    var interruptedFound := s.pending.None? && (s.part.state.Interrupted? || s.part.state.Transferring?);
    var resume := s.pending.Some? || (resumeRequest && interruptedFound);
    var folderTransfer := (s.pending.Some? && s.pending.value.folderTransfer) || source.FolderSource?;
    var target := if s.pending.Some? || interruptedFound then s.target else Missing;
    var prepared := ReceiveOffer(target, folderTransfer, resume, source.Size());
    if prepared.pending.None? then
      if s.pending.Some? then Fail(s.(target := prepared.target))
      else s.(part := WithState(s.part, Failed), target := prepared.target)
    else s.(part := WithState(s.part, Transferring), pending := prepared.pending, target := prepared.target)
  }

  function OnChunk(resolve: Resolver, s: Protocol, chunk: TransferFrame): Protocol
    requires chunk.Chunk?
  {
    if s.pending.None? then s
    else
      var after := ReceiveChunk(resolve, s.target, s.pending.value, chunk);
      if after.pending.None? then Fail(s.(target := after.target))
      else s.(pending := after.pending, target := after.target)
  }

  function OnComplete(s: Protocol, completeSize: nat): Protocol {
    if s.pending.None? then s
    else if !AcceptsComplete(s.pending.value, completeSize) then Fail(s)
    else s.(part := WithUpdate(s.part, Completed, s.pending.value.expectedSize), pending := None,
            completed := s.completed + [s.target])
  }

  // ---- Steps ----

  /** The size the receiver compares with; an invitation may not name one. */
  function RecordedSize(part: Part): nat {
    if part.fileSize.Some? then part.fileSize.value else 0
  }

  ghost function OnAccept(source: Source, s: Protocol): Protocol {
    var prepared := Accept(s.target, source.FolderSource?, s.part.state.Interrupted?, RecordedSize(s.part));
    if prepared.pending.None? then s.(target := prepared.target)
    else s.(part := s.part.(state := Transferring), pending := prepared.pending, target := prepared.target,
            accepts := s.accepts + [prepared.pending.value.receivedSize])
  }

  /** The stream reader reports a closed connection only while a transfer is open on it. */
  function CloseStream(s: Protocol): Protocol {
    var open := s.stream.Some? && s.stream.value.offerSent && !s.stream.value.completeSent;
    (if open then Interrupt(s) else s).(stream := None)
  }

  /** A resume request restarts the sender's task; its offer frame is answered with an accept frame
      carrying the measured size. */
  ghost function OnResumeRequest(source: Source, s: Protocol): Protocol {
    var s' := OnOffer(source, CloseStream(s), true);
    if s'.pending.None? then s' else s'.(accepts := s'.accepts + [s'.pending.value.receivedSize])
  }

  /** A new session restarts the sender's task as well. */
  function OnStart(source: Source, s: Protocol, offset: nat): Protocol {
    CloseStream(s).(stream := Some(StartCursor(source, offset)))
  }

  ghost function OnDeliver(source: Source, resolve: Resolver, s: Protocol, want: nat): Protocol
    requires s.stream.Some? && want > 0
  {
    var (cursor, produced) := Next(source, s.stream.value, want);
    match produced
    case Done => s.(stream := None)
    case SourceChanged => CloseStream(s)
    case Emit(frame) =>
      var s' := s.(stream := Some(cursor));
      match frame
      case Offer(_, _, _) => OnOffer(source, s', false)
      case Chunk(_, _, _) => OnChunk(resolve, s', frame)
      case Complete(size) => OnComplete(s', size)
  }

  function Without(accepts: seq<nat>, k: nat): seq<nat>
    requires k < |accepts|
  {
    accepts[..k] + accepts[k + 1..]
  }

  predicate CanAccept(s: Protocol) {
    s.part.state.Offered? || s.part.state.Interrupted?
  }

  /** An event that is not enabled changes nothing. */
  ghost function Step(source: Source, resolve: Resolver, s: Protocol, event: Event): Protocol {
    match event
    case AcceptInvitation => if CanAccept(s) then OnAccept(source, s) else s
    case AcceptLost(k, recoverable) =>
      if k < |s.accepts| then
        s.(accepts := Without(s.accepts, k), part := WithState(s.part, if recoverable then Interrupted else Failed))
      else s
    case AcceptDropped(k) => if k < |s.accepts| then s.(accepts := Without(s.accepts, k)) else s
    case ResumeRequest => OnResumeRequest(source, s)
    case StartSending(k) =>
      if k < |s.accepts| then OnStart(source, s.(accepts := Without(s.accepts, k)), s.accepts[k]) else s
    case SenderSends => OnStart(source, s, 0)
    case Deliver(want) => if s.stream.Some? && want > 0 then OnDeliver(source, resolve, s, want) else s
    case Cut => CloseStream(s)
    case OtherStreamClosed => Interrupt(s)
    case ReceiverRestarted => s.(pending := None, stream := None)
    case HistoryLoaded =>
      if s.pending.None? && s.part.state.Transferring? then s.(part := s.part.(state := Interrupted)) else s
  }

  ghost function Run(source: Source, resolve: Resolver, s: Protocol, events: seq<Event>): Protocol {
    if events == [] then s
    else Step(source, resolve, Run(source, resolve, s, events[..|events| - 1]), events[|events| - 1])
  }

  // ---- The invariant ----

  ghost function PayloadSize(target: Target): nat {
    match target
    case Missing => 0
    case PlainFile(content) => |content|
    case FolderTree(tree) => TreeSize(tree)
  }

  function TreeOf(target: Target): Tree {
    if target.FolderTree? then target.tree else map[]
  }

  /** How much of each entry is on disk. */
  function OnDisk(source: Source, target: Target): (counts: seq<nat>)
    requires source.FolderSource?
    ensures |counts| == |source.entries|
  {
    CountsOf(source.entries, TreeOf(target))
  }

  /** Everything the transfer promises: every non-empty file is on disk with exactly its bytes, and
      nothing foreign is. */
  ghost predicate HoldsWhole(source: Source, target: Target) {
    match source
    case FlatSource(content) => target == PlainFile(content)
    case FolderSource(entries) =>
      && target.FolderTree?
      && HoldsOnlyEntries(entries, target.tree)
      && forall i | 0 <= i < |entries| && entries[i].Size() > 0 ::
           entries[i].path in target.tree && target.tree[entries[i].path] == FileNode(entries[i].content)
  }

  /** Whatever is on disk is the beginning of what was sent: of the stream for a file, of each file for a
      folder. */
  ghost predicate PayloadInvariant(source: Source, target: Target) {
    match source
    case FlatSource(content) => target.Missing? || (target.PlainFile? && target.content <= content)
    case FolderSource(entries) => !target.PlainFile? && HoldsPrefixes(entries, TreeOf(target))
  }

  ghost predicate PendingInvariant(source: Source, s: Protocol) {
    s.pending.Some? ==>
      && s.pending.value.folderTransfer == source.FolderSource?
      && (if source.FolderSource? then s.target.FolderTree? else s.pending.value.receivedSize == PayloadSize(s.target))
  }

  ghost predicate StreamInvariant(source: Source, s: Protocol) {
    s.stream.Some? ==>
      && ValidCursor(source, s.stream.value)
      && (!s.stream.value.offerSent ==> s.stream.value == StartCursor(source, s.stream.value.offset))
      && (s.stream.value.offerSent && source == FlatSource([]) ==> s.target.PlainFile?)
  }

  ghost predicate Invariant(source: Source, s: Protocol) {
    && PayloadInvariant(source, s.target)
    && PendingInvariant(source, s)
    && StreamInvariant(source, s)
    && (source.FlatSource? ==> forall i | 0 <= i < |s.completed| :: HoldsWhole(source, s.completed[i]))
  }

  lemma {:induction false} InitialHolds(source: Source, invitedSize: Option<nat>)
    ensures Invariant(source, Initial(invitedSize))
  {
    if source.FolderSource? { EmptyTree(source.entries); }
  }

  lemma {:induction false} FolderFits(source: Source, target: Target)
    requires source.WellFormed() && source.FolderSource? && PayloadInvariant(source, target)
    ensures PayloadSize(target) == TreeSize(TreeOf(target)) <= source.Size()
  {
    EmptyTree(source.entries);
    ExactSize(source.entries, map[], 0);
    CountsWithin(source.entries, TreeOf(target));
  }

  /** Whether an offer without a pending entry finds the path of this part. */
  predicate PathFound(s: Protocol) {
    s.pending.Some? || s.part.state.Interrupted? || s.part.state.Transferring?
  }

  /** The size that the receiver measures when an offer arrives. */
  ghost function MeasuredAtOffer(s: Protocol, resumeRequest: bool): nat {
    if s.pending.Some? || (resumeRequest && PathFound(s)) then PayloadSize(s.target) else 0
  }

  /** What an offer does in a reachable state: a fresh path or an unmeasured file start empty, a folder
      keeps what it has. */
  lemma {:induction false} OfferHandled(source: Source, s: Protocol, resumeRequest: bool)
    requires source.WellFormed() && PayloadInvariant(source, s.target) && PendingInvariant(source, s)
    ensures var s' := OnOffer(source, s, resumeRequest);
            && s' == s.(part := WithState(s.part, Transferring), target := s'.target,
                        pending := Some(PendingIncoming(
                          source.Size(), MeasuredAtOffer(s, resumeRequest), source.FolderSource?)))
            && PayloadInvariant(source, s'.target) && PendingInvariant(source, s')
            && (source.FolderSource? ==> TreeOf(s'.target) == if PathFound(s) then TreeOf(s.target) else map[])
            && (source == FlatSource([]) ==> s'.target.PlainFile?)
  {
    if source.FolderSource? {
      EmptyTree(source.entries);
      FolderFits(source, s.target);
    }
  }

  lemma {:induction false} AcceptHandled(source: Source, s: Protocol)
    requires source.WellFormed() && Invariant(source, s) && CanAccept(s)
    ensures var s' := OnAccept(source, s);
            && Invariant(source, s') && s'.completed == s.completed && s'.stream == s.stream
            && (source.FolderSource? ==>
                  && TreeOf(s'.target) == TreeOf(s.target) && s'.pending.Some?
                  && s'.pending.value.receivedSize ==
                     if s.part.state.Interrupted? then Min(PayloadSize(s.target), RecordedSize(s.part)) else 0)
            && (s'.pending.Some? ==>
                  s'.part.state.Transferring? && s'.accepts == s.accepts + [s'.pending.value.receivedSize])
  {
    if source.FolderSource? {
      EmptyTree(source.entries);
      FolderFits(source, s.target);
    }
  }

  lemma {:induction false} CloseHandled(source: Source, s: Protocol)
    requires Invariant(source, s)
    ensures Invariant(source, Interrupt(s)) && Invariant(source, CloseStream(s))
    ensures CloseStream(s).stream.None? && CloseStream(s).target == s.target && CloseStream(s).completed == s.completed
  {}

  /** A connection that closes between the offer and the complete frame takes the pending entry with it and leaves
      a transferring part interrupted, with the offered size; any other closing changes nothing at the receiver. */
  lemma {:induction false} CutGives(source: Source, resolve: Resolver, s: Protocol)
    ensures var s' := Step(source, resolve, s, Cut);
      if s.pending.Some? && s.stream.Some? && s.stream.value.offerSent && !s.stream.value.completeSent then
        && s' == s.(stream := None, pending := None, part := s'.part)
        && (s.part.state.Transferring? ==> s'.part == Part(Interrupted, Some(s.pending.value.expectedSize)))
      else s' == s.(stream := None)
  {
  }

  /** A receiver that is restarted finds a transferring part interrupted once its history is loaded; loading it
      while the transfer is pending changes nothing. */
  lemma {:induction false} RestartGives(source: Source, resolve: Resolver, s: Protocol)
    ensures var s' := Step(source, resolve, Step(source, resolve, s, ReceiverRestarted), HistoryLoaded);
      s' == s.(pending := None, stream := None,
               part := if s.part.state.Transferring? then Part(Interrupted, s.part.fileSize) else s.part)
    ensures s.pending.Some? ==> Step(source, resolve, s, HistoryLoaded) == s
  {
  }

  /** An offer of a file where a directory lies makes no entry and fails a transferring part. */
  lemma {:induction false} OfferOverDirectoryFails(source: Source, s: Protocol, resumeRequest: bool)
    requires source.FlatSource? && s.target.FolderTree? && PathFound(s)
    requires s.pending.Some? ==> !s.pending.value.folderTransfer
    ensures var s' := OnOffer(source, s, resumeRequest);
      && s' == s.(pending := None, part := s'.part)
      && (s.part.state.Transferring? || s.part.state.Interrupted? ==> s'.part.state.Failed?)
  {
  }

  /** A resume request is answered with exactly one accept: of the size on disk if an entry or an interrupted
      part is left once the sender's old stream is closed, else of 0. */
  lemma {:induction false} ResumeRequestHandled(source: Source, s: Protocol)
    requires source.WellFormed() && Invariant(source, s)
    ensures var s' := OnResumeRequest(source, s);
            && Invariant(source, s') && s'.stream.None? && s'.completed == s.completed
            && (source.FolderSource? ==>
                  TreeOf(s'.target) == if PathFound(CloseStream(s)) then TreeOf(s.target) else map[])
    ensures var s', size := OnResumeRequest(source, s), if PathFound(CloseStream(s)) then PayloadSize(s.target) else 0;
            && s'.accepts == s.accepts + [size]
            && s'.pending == Some(PendingIncoming(source.Size(), size, source.FolderSource?))
  {
    CloseHandled(source, s);
    OfferHandled(source, CloseStream(s), true);
  }

  lemma {:induction false} StartHandled(source: Source, s: Protocol, offset: nat)
    requires Invariant(source, s)
    ensures var s' := OnStart(source, s, offset);
            && Invariant(source, s') && s'.stream == Some(StartCursor(source, offset)) && !s'.stream.value.offerSent
            && s'.target == s.target && s'.completed == s.completed
            && s'.stream.value.offset == if offset > source.Size() then 0 else offset
  {
    CloseHandled(source, s);
    StartCursorValid(source, offset);
  }

  // ---- Frames of a running session ----

  predicate MidStream(c: Cursor) {
    c.offerSent && !c.completeSent
  }

  /** From position `c` the sender sends `frame` and is then at `c'`. */
  ghost predicate Sends(source: Source, c: Cursor, c': Cursor, frame: TransferFrame) {
    && MidStream(c) && ValidCursor(source, c) && ValidCursor(source, c')
    && Emits(source, c, NextEntry(source, c), c', frame)
  }

  lemma {:induction false} FrameSent(source: Source, c: Cursor, want: nat) returns (c': Cursor, frame: TransferFrame)
    requires want > 0 && ValidCursor(source, c) && MidStream(c)
    ensures Next(source, c, want) == (c', Emit(frame)) && Sends(source, c, c', frame)
  {
    NextStep(source, c, want);
    var next := Next(source, c, want);
    c', frame := next.0, next.1.frame;
  }

  /** The receiver expects the sender's position and what is on disk there fits. */
  ghost predicate Attached(source: Source, s: Protocol) {
    && s.stream.Some? && MidStream(s.stream.value)
    && s.pending.Some? && s.pending.value.receivedSize == s.stream.value.offset
    && (source.FolderSource? ==>
          FitsAt(source.entries, OnDisk(source, s.target), NextEntry(source, s.stream.value), s.stream.value.offset))
  }

  /** A folder chunk from position `c`: its entry and the bytes of it. */
  ghost predicate Carries(entries: seq<FolderEntry>, c: Cursor, c': Cursor, i: nat, from: nat, to: nat) {
    && i < |entries| && from <= to <= entries[i].Size() && (from == to <==> entries[i].Size() == 0)
    && c.offset == Start(entries, i) + from && c'.offset == Start(entries, i) + to && MidStream(c')
    && NextEntry(FolderSource(entries), c) == i
    && NextEntry(FolderSource(entries), c') == if to == entries[i].Size() then i + 1 else i
  }

  lemma {:induction false} ChunkPlace(entries: seq<FolderEntry>, c: Cursor, c': Cursor, frame: TransferFrame)
      returns (i: nat, from: nat, to: nat)
    requires Sends(FolderSource(entries), c, c', frame) && frame.Chunk?
    ensures EntryChunkOf(entries, frame, i) && from == frame.target.value.fileOffset && to == from + |frame.body|
    ensures Carries(entries, c, c', i, from, to)
  {
    i, from := NextEntry(FolderSource(entries), c), frame.target.value.fileOffset;
    to := from + |frame.body|;
  }

  /** The place after a chunk fits again. */
  lemma {:induction false} FitsOn(entries: seq<FolderEntry>, counts: seq<nat>, c: Cursor, c': Cursor, i: nat, from: nat, to: nat)
    requires |counts| == |entries| && Carries(entries, c, c', i, from, to)
    ensures FitsAt(entries, counts[i := to], NextEntry(FolderSource(entries), c'), c'.offset)
  {}

  /** The receiver writes a folder chunk if it expects its offset and the chunk fits. */
  lemma {:induction false} FolderChunkOutcome(entries: seq<FolderEntry>, resolve: Resolver, tree: Tree, c: Cursor, c': Cursor,
        frame: TransferFrame)
      returns (i: nat, from: nat, to: nat)
    requires FolderSource(entries).WellFormed() && Understands(resolve, FolderSource(entries)) && HoldsPrefixes(entries, tree)
    requires Sends(FolderSource(entries), c, c', frame) && frame.Chunk?
    ensures Carries(entries, c, c', i, from, to)
    ensures IsWritten(entries, tree, i, from, to, WriteFolderChunk(resolve, tree, frame.target, frame.body))
  {
    i, from, to := ChunkPlace(entries, c, c', frame);
    FolderChunkWritten(resolve, entries, tree, frame, i, from, to);
  }

  /** A chunk that the receiver refuses is not written... */
  lemma {:induction false} FolderChunkMisfits(entries: seq<FolderEntry>, resolve: Resolver, tree: Tree, c: Cursor, c': Cursor,
        frame: TransferFrame)
      returns (tree': Tree)
    requires FolderSource(entries).WellFormed() && Understands(resolve, FolderSource(entries)) && HoldsPrefixes(entries, tree)
    requires Sends(FolderSource(entries), c, c', frame) && frame.Chunk?
    requires !FitsAt(entries, CountsOf(entries, tree), NextEntry(FolderSource(entries), c), c.offset)
    ensures WriteFolderChunk(resolve, tree, frame.target, frame.body) == (tree', false)
    ensures HoldsPrefixes(entries, tree') && CountsOf(entries, tree') == CountsOf(entries, tree)
  {
    var i, from, to := FolderChunkOutcome(entries, resolve, tree, c, c', frame);
    tree' := WriteFolderChunk(resolve, tree, frame.target, frame.body).0;
  }

  /** ... and it ends the entry. */
  lemma {:induction false} ChunkRefused(source: Source, resolve: Resolver, s: Protocol, c': Cursor, frame: TransferFrame)
    requires source.WellFormed() && Understands(resolve, source) && Invariant(source, s)
    requires s.stream.Some? && Sends(source, s.stream.value, c', frame) && frame.Chunk?
    requires s.pending.Some? && !Attached(source, s)
    ensures var s' := OnChunk(resolve, s.(stream := Some(c')), frame);
            && s' == Fail(s).(stream := Some(c'), target := s'.target) && PayloadInvariant(source, s'.target)
            && (source == FlatSource([]) ==> s'.target == s.target)
            && (source.FolderSource? ==> OnDisk(source, s'.target) == OnDisk(source, s.target))
  {
    if source.FolderSource? && s.pending.value.receivedSize == frame.offset {
      var tree' := FolderChunkMisfits(source.entries, resolve, s.target.tree, s.stream.value, c', frame);
    }
  }

  /** What the payload is after a chunk the receiver takes. */
  ghost predicate Extended(source: Source, target: Target, target': Target, c: Cursor, c': Cursor) {
    && PayloadInvariant(source, target')
    && match source
       case FlatSource(content) => target'.PlainFile? && PayloadSize(target') == c'.offset
       case FolderSource(entries) =>
         target.FolderTree? && target'.FolderTree? && TreeExtended(entries, target.tree, target'.tree, c, c')
  }

  ghost predicate TreeExtended(entries: seq<FolderEntry>, tree: Tree, tree': Tree, c: Cursor, c': Cursor) {
    exists i: nat, from: nat, to: nat ::
      && Carries(entries, c, c', i, from, to)
      && Fits(entries[i], CountsOf(entries, tree)[i], from)
      && IsWritten(entries, tree, i, from, to, (tree', true))
  }

  lemma {:induction false} FolderChunkTaken(entries: seq<FolderEntry>, resolve: Resolver, tree: Tree, c: Cursor, c': Cursor,
        frame: TransferFrame)
      returns (tree': Tree)
    requires FolderSource(entries).WellFormed() && Understands(resolve, FolderSource(entries)) && HoldsPrefixes(entries, tree)
    requires Sends(FolderSource(entries), c, c', frame) && frame.Chunk?
    requires FitsAt(entries, CountsOf(entries, tree), NextEntry(FolderSource(entries), c), c.offset)
    ensures WriteFolderChunk(resolve, tree, frame.target, frame.body) == (tree', true)
    ensures HoldsPrefixes(entries, tree') && TreeExtended(entries, tree, tree', c, c')
    ensures FitsAt(entries, CountsOf(entries, tree'), NextEntry(FolderSource(entries), c'), c'.offset)
  {
    var i, from, to := FolderChunkOutcome(entries, resolve, tree, c, c', frame);
    tree' := WriteFolderChunk(resolve, tree, frame.target, frame.body).0;
    FitsOn(entries, CountsOf(entries, tree), c, c', i, from, to);
  }

  lemma {:induction false} FlatChunkTaken(content: seq<Byte>, target: Target, frame: TransferFrame)
    requires ChunkOf(FlatSource(content), frame, 0) && PayloadInvariant(FlatSource(content), target)
    requires PayloadSize(target) == frame.offset
    ensures PayloadInvariant(FlatSource(content), PlainFile((if target.PlainFile? then target.content else []) + frame.body))
  {
    TakeThenSlice(content, frame.offset, frame.offset + |frame.body|);
  }

  /** A chunk that the receiver takes is written... */
  lemma {:induction false} ChunkWritten(source: Source, resolve: Resolver, s: Protocol, c': Cursor, frame: TransferFrame)
      returns (target': Target)
    requires source.WellFormed() && Understands(resolve, source) && Invariant(source, s)
    requires Attached(source, s) && Sends(source, s.stream.value, c', frame) && frame.Chunk?
    ensures WriteChunk(resolve, s.target, s.pending.value, frame) == (target', true)
    ensures Extended(source, s.target, target', s.stream.value, c')
    ensures source.FolderSource? ==> FitsAt(source.entries, OnDisk(source, target'), NextEntry(source, c'), c'.offset)
  {
    match source
    case FlatSource(content) =>
      target' := PlainFile((if s.target.PlainFile? then s.target.content else []) + frame.body);
      FlatChunkTaken(content, s.target, frame);
    case FolderSource(entries) =>
      var tree' := FolderChunkTaken(entries, resolve, s.target.tree, s.stream.value, c', frame);
      target' := FolderTree(tree');
  }

  function Counted(s: Protocol, c': Cursor, target': Target): Protocol
    requires s.pending.Some?
  {
    s.(stream := Some(c'), target := target', pending := Some(s.pending.value.(receivedSize := c'.offset)))
  }

  /** ... and then counted, unless it exceeds the expected size. */
  lemma {:induction false} WrittenIsCounted(resolve: Resolver, s: Protocol, c': Cursor, frame: TransferFrame, target': Target)
    requires s.pending.Some? && frame.Chunk? && s.pending.value.receivedSize == frame.offset
    requires c'.offset == frame.offset + |frame.body|
    requires WriteChunk(resolve, s.target, s.pending.value, frame) == (target', true)
    ensures OnChunk(resolve, s.(stream := Some(c')), frame)
         == if c'.offset > s.pending.value.expectedSize then Fail(s).(stream := Some(c'), target := target')
            else Counted(s, c', target')
  {}

  lemma {:induction false} CountedIsAttached(source: Source, s: Protocol, c': Cursor, target': Target)
    requires s.pending.Some? && MidStream(c')
    requires source.FolderSource? ==> FitsAt(source.entries, OnDisk(source, target'), NextEntry(source, c'), c'.offset)
    ensures Attached(source, Counted(s, c', target'))
  {}

  lemma {:induction false} ChunkTaken(source: Source, resolve: Resolver, s: Protocol, c': Cursor, frame: TransferFrame)
      returns (target': Target)
    requires source.WellFormed() && Understands(resolve, source) && Invariant(source, s)
    requires Attached(source, s) && Sends(source, s.stream.value, c', frame) && frame.Chunk?
    ensures OnChunk(resolve, s.(stream := Some(c')), frame)
         == if c'.offset > s.pending.value.expectedSize then Fail(s).(stream := Some(c'), target := target')
            else Counted(s, c', target')
    ensures Extended(source, s.target, target', s.stream.value, c') && Attached(source, Counted(s, c', target'))
  {
    target' := ChunkWritten(source, resolve, s, c', frame);
    WrittenIsCounted(resolve, s, c', frame, target');
    CountedIsAttached(source, s, c', target');
  }

  /** A complete frame is accepted exactly when everything was counted. */
  lemma {:induction false} CompleteHandled(source: Source, s: Protocol, c': Cursor, frame: TransferFrame)
    requires s.stream.Some? && Sends(source, s.stream.value, c', frame) && !frame.Chunk? && s.pending.Some?
    ensures frame == Complete(source.Size())
    ensures var s' := OnComplete(s.(stream := Some(c')), source.Size());
            s' == if Attached(source, s) && s.pending.value.expectedSize == source.Size()
                  then s.(stream := Some(c'), pending := None, completed := s.completed + [s.target],
                          part := WithUpdate(s.part, Completed, source.Size()))
                  else Fail(s).(stream := Some(c'))
  {}

  lemma {:induction false} FlatWhole(source: Source, s: Protocol)
    requires source.FlatSource? && Invariant(source, s) && Attached(source, s) && s.stream.value.offset == source.Size()
    ensures HoldsWhole(source, s.target)
  {}

  // ---- The invariant over all runs ----

  lemma {:induction false} OfferKeepsInvariant(source: Source, resolve: Resolver, s: Protocol, want: nat)
    requires source.WellFormed() && Invariant(source, s) && want > 0 && s.stream.Some? && !s.stream.value.offerSent
    ensures var s', s1 := OnDeliver(source, resolve, s, want), s.(stream := Some(s.stream.value.(offerSent := true)));
            s' == OnOffer(source, s1, false) && Invariant(source, s') && s'.stream == s1.stream
  {
    StartCursorValid(source, s.stream.value.offset);
    OfferHandled(source, s.(stream := Some(s.stream.value.(offerSent := true))), false);
  }

  lemma {:induction false} ChunkKeepsInvariant(source: Source, resolve: Resolver, s: Protocol, c': Cursor, frame: TransferFrame)
    requires source.WellFormed() && Understands(resolve, source) && Invariant(source, s)
    requires s.stream.Some? && Sends(source, s.stream.value, c', frame) && frame.Chunk?
    ensures Invariant(source, OnChunk(resolve, s.(stream := Some(c')), frame))
  {
    if s.pending.Some? {
      if Attached(source, s) {
        var target' := ChunkTaken(source, resolve, s, c', frame);
      } else {
        ChunkRefused(source, resolve, s, c', frame);
      }
    }
  }

  lemma {:induction false} CompleteKeepsInvariant(source: Source, s: Protocol, c': Cursor, frame: TransferFrame)
    requires Invariant(source, s)
    requires s.stream.Some? && Sends(source, s.stream.value, c', frame) && !frame.Chunk?
    ensures Invariant(source, OnComplete(s.(stream := Some(c')), source.Size()))
  {
    if s.pending.Some? {
      CompleteHandled(source, s, c', frame);
      if source.FlatSource? && Attached(source, s) { FlatWhole(source, s); }
    }
  }

  lemma {:induction false} DeliverKeepsInvariant(source: Source, resolve: Resolver, s: Protocol, want: nat)
    requires source.WellFormed() && Understands(resolve, source) && Invariant(source, s) && want > 0 && s.stream.Some?
    ensures Invariant(source, OnDeliver(source, resolve, s, want))
  {
    if !s.stream.value.offerSent {
      OfferKeepsInvariant(source, resolve, s, want);
    } else if s.stream.value.completeSent {
      NextStep(source, s.stream.value, want);
    } else {
      var c', frame := FrameSent(source, s.stream.value, want);
      if frame.Chunk? {
        ChunkKeepsInvariant(source, resolve, s, c', frame);
      } else {
        CompleteKeepsInvariant(source, s, c', frame);
      }
    }
  }

  lemma {:induction false} StepKeepsInvariant(source: Source, resolve: Resolver, s: Protocol, event: Event)
    requires source.WellFormed() && Understands(resolve, source) && Invariant(source, s)
    ensures Invariant(source, Step(source, resolve, s, event))
  {
    match event
    case AcceptInvitation => if CanAccept(s) { AcceptHandled(source, s); }
    case AcceptLost(_, _) =>
    case AcceptDropped(_) =>
    case ResumeRequest => ResumeRequestHandled(source, s);
    case StartSending(k) => if k < |s.accepts| { StartHandled(source, s.(accepts := Without(s.accepts, k)), s.accepts[k]); }
    case SenderSends => StartHandled(source, s, 0);
    case Deliver(want) => if s.stream.Some? && want > 0 { DeliverKeepsInvariant(source, resolve, s, want); }
    case Cut => CloseHandled(source, s);
    case OtherStreamClosed => CloseHandled(source, s);
    case ReceiverRestarted =>
    case HistoryLoaded =>
  }

  /** Safety over all runs: whatever is on disk is the beginning of the file, or of each file of the folder,
      and a flat payload whose complete frame was accepted is the whole file. */
  lemma {:induction false} RunKeepsInvariant(source: Source, resolve: Resolver, invitedSize: Option<nat>, events: seq<Event>)
    requires source.WellFormed() && Understands(resolve, source)
    ensures Invariant(source, Run(source, resolve, Initial(invitedSize), events))
  {
    InitialHolds(source, invitedSize);
    if events != [] {
      RunKeepsInvariant(source, resolve, invitedSize, events[..|events| - 1]);
      StepKeepsInvariant(source, resolve, Run(source, resolve, Initial(invitedSize), events[..|events| - 1]), events[|events| - 1]);
    }
  }
}
