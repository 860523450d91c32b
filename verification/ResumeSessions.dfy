/** When a session of the resume protocol completes, and what it then leaves. */
module ResumeSessions {
  import opened Prelude
  import opened TransferStates
  import opened TransferSource
  import opened TransferProducer
  import opened TransferReceiver
  import opened TransferProgress
  import opened ResumeProtocol

  // ---- Sessions that are not cut ----

  /** Delivers frame after frame until the sender is done; `sizes(k) + 1` bounds read `k`. */
  ghost function Uncut(source: Source, resolve: Resolver, s: Protocol, sizes: nat -> nat, k: nat): Protocol
    requires s.stream.Some? ==> ValidCursor(source, s.stream.value)
    decreases s.stream.Some?,
              if s.stream.Some? then !s.stream.value.offerSent else false,
              if s.stream.Some? && source.FolderSource? then |source.entries| - s.stream.value.index else 0,
              if s.stream.Some? then source.Size() - s.stream.value.offset else 0,
              if s.stream.Some? then !s.stream.value.completeSent else false
  {
    if s.stream.None? then s
    else
      Progresses(source, resolve, s, sizes(k) + 1);
      Uncut(source, resolve, OnDeliver(source, resolve, s, sizes(k) + 1), sizes, k + 1)
  }

  /** The sender's next position does not depend on what the receiver does. */
  lemma {:induction false} CursorMoves(source: Source, resolve: Resolver, s: Protocol, want: nat)
    requires want > 0 && s.stream.Some?
    ensures var (c', produced) := Next(source, s.stream.value, want);
            OnDeliver(source, resolve, s, want).stream == if produced.Emit? then Some(c') else None
  {}

  lemma {:induction false} Progresses(source: Source, resolve: Resolver, s: Protocol, want: nat)
    requires want > 0 && s.stream.Some? && ValidCursor(source, s.stream.value)
    ensures var s' := OnDeliver(source, resolve, s, want);
            && (s'.stream.None? <==> s.stream.value.offerSent && s.stream.value.completeSent)
            && (s'.stream.Some? ==>
                  ValidCursor(source, s'.stream.value) && Lower(source, s'.stream.value, s.stream.value))
  {
    CursorMoves(source, resolve, s, want);
    if s.stream.value.offerSent { NextStep(source, s.stream.value, want); }
  }

  lemma {:induction false} DetachedStep(source: Source, resolve: Resolver, s: Protocol, want: nat)
    requires want > 0 && s.stream.Some? && ValidCursor(source, s.stream.value)
    requires s.stream.value.offerSent && s.pending.None?
    ensures var s' := OnDeliver(source, resolve, s, want);
            s' == s.(stream := s'.stream) && (s'.stream.Some? ==> s'.stream.value.offerSent)
  {
    NextStep(source, s.stream.value, want);
  }

  /** Once the receiver has no pending entry, the rest of the stream changes nothing. */
  lemma {:induction false} DetachedStays(source: Source, resolve: Resolver, s: Protocol, sizes: nat -> nat, k: nat)
    requires s.stream.Some? && ValidCursor(source, s.stream.value) && s.stream.value.offerSent && s.pending.None?
    ensures Uncut(source, resolve, s, sizes, k) == s.(stream := None)
    decreases if source.FolderSource? then |source.entries| - s.stream.value.index else 0,
              source.Size() - s.stream.value.offset, !s.stream.value.completeSent
  {
    Progresses(source, resolve, s, sizes(k) + 1);
    DetachedStep(source, resolve, s, sizes(k) + 1);
    var s' := OnDeliver(source, resolve, s, sizes(k) + 1);
    if s'.stream.Some? {
      DetachedStays(source, resolve, s', sizes, k + 1);
    }
  }

  /** Entries from `i` on are whole, those before are as they were. */
  ghost predicate WholeFrom(entries: seq<FolderEntry>, before: seq<nat>, after: seq<nat>, i: nat) {
    && |before| == |after| == |entries|
    && forall j {:trigger after[j]} | 0 <= j < |entries| :: after[j] == if j < i then before[j] else entries[j].Size()
  }

  /** What an attached session leaves at its end. */
  ghost predicate Finishes(source: Source, target: Target, whole: Target, i: nat) {
    && PayloadInvariant(source, whole) && !whole.Missing?
    && (source.FlatSource? ==> HoldsWhole(source, whole))
    && (source.FolderSource? ==>
          && WholeFrom(source.entries, OnDisk(source, target), OnDisk(source, whole), i)
          && (HoldsEntries(source, target, i) ==> HoldsEntries(source, whole, |source.entries|)))
  }

  lemma {:induction false} FinishesEarlier(source: Source, target: Target, target': Target, whole: Target, c: Cursor, c': Cursor)
    requires Extended(source, target, target', c, c') && Finishes(source, target', whole, NextEntry(source, c'))
    ensures Finishes(source, target, whole, NextEntry(source, c))
  {}

  /** The position after a complete frame: nothing is left. */
  lemma {:induction false} AllFinished(source: Source, s: Protocol, c': Cursor, frame: TransferFrame)
    requires Invariant(source, s) && Attached(source, s) && Sends(source, s.stream.value, c', frame) && !frame.Chunk?
    ensures Finishes(source, s.target, s.target, NextEntry(source, s.stream.value))
  {
    if source.FlatSource? { FlatWhole(source, s); }
  }

  /** The state at the end of a session that completes. */
  function CompletedWith(source: Source, s: Protocol, whole: Target): Protocol {
    s.(stream := None, pending := None, target := whole, part := WithUpdate(s.part, Completed, source.Size()),
       completed := s.completed + [whole])
  }

  /** An attached session that is not cut goes on with a chunk that is taken... */
  lemma {:induction false} AttachedGoesOn(source: Source, resolve: Resolver, s: Protocol, want: nat, c': Cursor, frame: TransferFrame)
      returns (target': Target)
    requires source.WellFormed() && Understands(resolve, source) && Invariant(source, s) && want > 0
    requires Attached(source, s) && s.pending.value.expectedSize == source.Size()
    requires Next(source, s.stream.value, want) == (c', Emit(frame)) && Sends(source, s.stream.value, c', frame)
    requires frame.Chunk?
    ensures OnDeliver(source, resolve, s, want) == Counted(s, c', target')
    ensures Invariant(source, Counted(s, c', target')) && Attached(source, Counted(s, c', target'))
    ensures Extended(source, s.target, target', s.stream.value, c')
  {
    target' := ChunkTaken(source, resolve, s, c', frame);
    ChunkKeepsInvariant(source, resolve, s, c', frame);
  }

  /** ... or ends with a complete frame that is accepted. */
  lemma {:induction false} AttachedEnds(source: Source, resolve: Resolver, s: Protocol, sizes: nat -> nat, k: nat, c': Cursor,
        frame: TransferFrame)
    requires source.WellFormed() && Understands(resolve, source) && Invariant(source, s)
    requires Attached(source, s) && s.pending.value.expectedSize == source.Size()
    requires Next(source, s.stream.value, sizes(k) + 1) == (c', Emit(frame)) && Sends(source, s.stream.value, c', frame)
    requires !frame.Chunk?
    ensures Uncut(source, resolve, s, sizes, k) == CompletedWith(source, s, s.target)
    ensures Finishes(source, s.target, s.target, NextEntry(source, s.stream.value))
  {
    Progresses(source, resolve, s, sizes(k) + 1);
    CompleteHandled(source, s, c', frame);
    AllFinished(source, s, c', frame);
    DetachedStays(source, resolve, OnDeliver(source, resolve, s, sizes(k) + 1), sizes, k + 1);
  }

  lemma {:induction false} AttachedCompletes(source: Source, resolve: Resolver, s: Protocol, sizes: nat -> nat, k: nat)
      returns (whole: Target)
    requires source.WellFormed() && Understands(resolve, source) && Invariant(source, s)
    requires Attached(source, s) && s.pending.value.expectedSize == source.Size()
    ensures Uncut(source, resolve, s, sizes, k) == CompletedWith(source, s, whole)
    ensures Finishes(source, s.target, whole, NextEntry(source, s.stream.value))
    decreases if source.FolderSource? then |source.entries| - s.stream.value.index else 0,
              source.Size() - s.stream.value.offset
  {
    var c', frame := FrameSent(source, s.stream.value, sizes(k) + 1);
    if frame.Chunk? {
      var target' := AttachedGoesOn(source, resolve, s, sizes(k) + 1, c', frame);
      whole := AttachedCompletes(source, resolve, Counted(s, c', target'), sizes, k + 1);
      FinishesEarlier(source, s.target, target', whole, s.stream.value, c');
    } else {
      whole := s.target;
      AttachedEnds(source, resolve, s, sizes, k, c', frame);
    }
  }

  /** The state at the end of a session whose next frame is refused. */
  function FailedWith(source: Source, s: Protocol, target: Target): Protocol {
    s.(stream := None, pending := None, target := target, part := WithUpdate(s.part, Failed, source.Size()))
  }

  lemma {:induction false} UnattachedStep(source: Source, resolve: Resolver, s: Protocol, want: nat) returns (c': Cursor)
    requires source.WellFormed() && Understands(resolve, source) && Invariant(source, s) && want > 0
    requires s.stream.Some? && MidStream(s.stream.value) && !Attached(source, s)
    requires s.pending.Some? && s.pending.value.expectedSize == source.Size()
    ensures var s' := OnDeliver(source, resolve, s, want);
            && s' == FailedWith(source, s, s'.target).(stream := Some(c'))
            && ValidCursor(source, c') && c'.offerSent
            && (source.FolderSource? ==> OnDisk(source, s'.target) == OnDisk(source, s.target))
  {
    var frame: TransferFrame;
    c', frame := FrameSent(source, s.stream.value, want);
    if frame.Chunk? {
      ChunkRefused(source, resolve, s, c', frame);
    } else {
      CompleteHandled(source, s, c', frame);
    }
  }

  /** A session that is not attached has its next frame refused; no file changes. */
  lemma {:induction false} UnattachedFails(source: Source, resolve: Resolver, s: Protocol, sizes: nat -> nat, k: nat)
      returns (target': Target)
    requires source.WellFormed() && Understands(resolve, source) && Invariant(source, s)
    requires s.stream.Some? && MidStream(s.stream.value) && !Attached(source, s)
    requires s.pending.Some? && s.pending.value.expectedSize == source.Size()
    ensures Uncut(source, resolve, s, sizes, k) == FailedWith(source, s, target')
    ensures source.FolderSource? ==> OnDisk(source, target') == OnDisk(source, s.target)
  {
    var c' := UnattachedStep(source, resolve, s, sizes(k) + 1);
    var s' := OnDeliver(source, resolve, s, sizes(k) + 1);
    target' := s'.target;
    DetachedStays(source, resolve, s', sizes, k + 1);
  }

  // ---- When a session completes ----

  /** The size measured when the session's offer arrives is the offset it starts at, and the file at that
      place holds exactly the bytes before it. */
  ghost predicate GoesOn(source: Source, s: Protocol)
    requires s.stream.Some?
  {
    var c := s.stream.value;
    && c.offset == (if s.pending.Some? then PayloadSize(s.target) else 0)
    && (source.FolderSource? && c.fileOffset > 0 ==>
          c.index < |source.entries| && OnDisk(source, s.target)[c.index] == c.fileOffset)
  }

  /** What the session finds on disk: a fresh path is empty. */
  function FoundOnDisk(source: Source, s: Protocol): (counts: seq<nat>)
    requires source.FolderSource?
    ensures |counts| == |source.entries|
  {
    OnDisk(source, if PathFound(s) then s.target else Missing)
  }

  /** A session about to deliver its offer. */
  ghost predicate StartsSession(s: Protocol) {
    s.stream.Some? && !s.stream.value.offerSent
  }

  lemma {:induction false} StartPlace(source: Source, c: Cursor)
    requires c == StartCursor(source, c.offset)
    ensures var c1 := c.(offerSent := true);
            && ValidCursor(source, c1) && MidStream(c1)
            && (source.FolderSource? ==>
                  && IsSeekPosition(source.entries, c.offset, c.index, c.fileOffset)
                  && NextEntry(source, c1) == c.index && c.offset - Start(source.entries, c.index) == c.fileOffset)
  {
    StartCursorValid(source, c.offset);
  }

  /** The state once the offer is delivered. */
  function AfterOffer(source: Source, s: Protocol, target': Target, measured: nat): Protocol
    requires s.stream.Some?
  {
    s.(part := WithState(s.part, Transferring), stream := Some(s.stream.value.(offerSent := true)), target := target',
       pending := Some(PendingIncoming(source.Size(), measured, source.FolderSource?)))
  }

  lemma {:induction false} SeekFits(entries: seq<FolderEntry>, counts: seq<nat>, offset: nat, i: nat, from: nat)
    requires |counts| == |entries| && IsSeekPosition(entries, offset, i, from)
    ensures FitsAt(entries, counts, i, offset) <==> (from > 0 ==> i < |entries| && counts[i] == from)
  {}

  lemma {:induction false} AttachedIffGoesOn(source: Source, s: Protocol, target': Target)
    requires StartsSession(s) && StreamInvariant(source, s)
    requires source.FolderSource? ==> OnDisk(source, target') == FoundOnDisk(source, s)
    ensures Attached(source, AfterOffer(source, s, target', if s.pending.Some? then PayloadSize(s.target) else 0))
       <==> GoesOn(source, s)
  {
    var c := s.stream.value;
    StartPlace(source, c);
    if source.FolderSource? {
      SeekFits(source.entries, FoundOnDisk(source, s), c.offset, c.index, c.fileOffset);
    }
  }

  /** Delivering the offer attaches the session exactly if it goes on. */
  lemma {:induction false} OfferDelivered(source: Source, resolve: Resolver, s: Protocol, want: nat)
      returns (target': Target)
    requires source.WellFormed() && Invariant(source, s) && want > 0 && StartsSession(s)
    ensures var s' := OnDeliver(source, resolve, s, want);
            && s' == AfterOffer(source, s, target', if s.pending.Some? then PayloadSize(s.target) else 0)
            && Invariant(source, s') && (Attached(source, s') <==> GoesOn(source, s))
    ensures source.FolderSource? ==> OnDisk(source, target') == FoundOnDisk(source, s)
  {
    OfferKeepsInvariant(source, resolve, s, want);
    OfferHandled(source, s.(stream := Some(s.stream.value.(offerSent := true))), false);
    target' := OnDeliver(source, resolve, s, want).target;
    AttachedIffGoesOn(source, s, target');
  }

  /** A session that goes on completes, whatever it was given; entries before its place are as found, those
      from there on are whole. */
  lemma {:induction false} GoingOnCompletes(source: Source, resolve: Resolver, s: Protocol, sizes: nat -> nat)
      returns (whole: Target)
    requires source.WellFormed() && Understands(resolve, source) && Invariant(source, s)
    requires StartsSession(s) && GoesOn(source, s)
    ensures Uncut(source, resolve, s, sizes, 0)
         == CompletedWith(source, s.(part := WithState(s.part, Transferring)), whole)
    ensures PayloadInvariant(source, whole) && !whole.Missing? && (source.FlatSource? ==> HoldsWhole(source, whole))
    ensures source.FolderSource? ==>
              WholeFrom(source.entries, FoundOnDisk(source, s), OnDisk(source, whole), s.stream.value.index)
    ensures s.stream.value.index == 0 && source.FolderSource? ==> HoldsEntries(source, whole, |source.entries|)
  {
    var target' := OfferDelivered(source, resolve, s, sizes(0) + 1);
    Progresses(source, resolve, s, sizes(0) + 1);
    StartPlace(source, s.stream.value);
    whole := AttachedCompletes(source, resolve, OnDeliver(source, resolve, s, sizes(0) + 1), sizes, 1);
  }

  /** Any other session has its first frame after the offer refused: nothing is completed, and no file
      changes. */
  lemma {:induction false} OtherwiseFails(source: Source, resolve: Resolver, s: Protocol, sizes: nat -> nat)
      returns (target': Target)
    requires source.WellFormed() && Understands(resolve, source) && Invariant(source, s)
    requires StartsSession(s) && !GoesOn(source, s)
    ensures Uncut(source, resolve, s, sizes, 0) == FailedWith(source, s.(part := WithState(s.part, Transferring)), target')
    ensures source.FolderSource? ==> OnDisk(source, target') == FoundOnDisk(source, s)
  {
    var offered := OfferDelivered(source, resolve, s, sizes(0) + 1);
    Progresses(source, resolve, s, sizes(0) + 1);
    target' := UnattachedFails(source, resolve, OnDeliver(source, resolve, s, sizes(0) + 1), sizes, 1);
  }

  /** For a folder whose files are prefixes, nothing missing means whole. */
  lemma {:induction false} WholeIffAllWhole(source: Source, target: Target)
    requires source.WellFormed() && source.FolderSource? && target.FolderTree? && PayloadInvariant(source, target)
    ensures HoldsWhole(source, target) <==> AllWhole(source.entries, OnDisk(source, target), |source.entries|)
  {
    var entries, tree := source.entries, target.tree;
    forall i | 0 <= i < |entries|
      ensures OnDisk(source, target)[i] == entries[i].Size()
         <==> (entries[i].Size() > 0 ==> entries[i].path in tree && tree[entries[i].path] == FileNode(entries[i].content))
    {
      WholeFile(entries, tree, i);
    }
  }

  lemma {:induction false} WholeFile(entries: seq<FolderEntry>, tree: Tree, i: nat)
    requires DistinctPaths(entries) && HoldsPrefixes(entries, tree) && i < |entries|
    ensures BytesOf(entries[i], tree) == entries[i].Size()
       <==> (entries[i].Size() > 0 ==> entries[i].path in tree && tree[entries[i].path] == FileNode(entries[i].content))
  {
    assert IsPrefix(entries[i], tree);
    if entries[i].path in tree { NodeOfEntry(entries, tree, i); }
    if entries[i].File? { assert entries[i].content[..|entries[i].content|] == entries[i].content; }
  }

  /** The receiver's tree is the source tree: same paths, same kinds, same bytes. */
  ghost predicate SameTree(source: Source, target: Target) {
    source.FolderSource? ==>
      && target.FolderTree?
      && (forall i | 0 <= i < |source.entries| ::
            && source.entries[i].path in target.tree
            && target.tree[source.entries[i].path] ==
               if source.entries[i].Directory? then DirectoryNode else FileNode(source.entries[i].content))
      && (forall path | path in target.tree :: exists i :: 0 <= i < |source.entries| && source.entries[i].path == path)
  }

  lemma {:induction false} WholeAndListedIsSame(source: Source, target: Target)
    requires source.WellFormed() && source.FolderSource? && HoldsWhole(source, target)
    requires HoldsEntries(source, target, |source.entries|)
    ensures SameTree(source, target)
  {
    forall i | 0 <= i < |source.entries|
      ensures MatchesEntry(source.entries[i], target.tree[source.entries[i].path])
    {
      NodeOfEntry(source.entries, target.tree, i);
    }
    forall path | path in target.tree
      ensures exists i :: 0 <= i < |source.entries| && source.entries[i].path == path
    {
      assert IsEntry(source.entries, target.tree, path);
    }
  }

  /** From the start of the stream the whole tree is recreated, empty entries included. */
  lemma {:induction false} FromStartIsSame(source: Source, target: Target, before: seq<nat>)
    requires source.WellFormed() && PayloadInvariant(source, target) && source.FolderSource? && target.FolderTree?
    requires WholeFrom(source.entries, before, OnDisk(source, target), 0)
    requires HoldsEntries(source, target, |source.entries|)
    ensures SameTree(source, target)
  {
    WholeIffAllWhole(source, target);
    WholeAndListedIsSame(source, target);
  }

  /** Whether the entries that a session skips are whole on disk. */
  ghost predicate SkipsWhole(source: Source, s: Protocol)
    requires s.stream.Some? && StreamInvariant(source, s)
  {
    source.FolderSource? ==> AllWhole(source.entries, FoundOnDisk(source, s), s.stream.value.index)
  }

  /** The handshake on every run: a session that is not cut adds a completed payload if and only if the size
      measured when its offer arrives is the offset it starts at and the file at that place fits; what it
      adds is whole if and only if the entries it skips were, and from offset 0 it is the source tree. */
  lemma {:induction false} UncutSessionCompletesIff(
      source: Source, resolve: Resolver, invitedSize: Option<nat>, events: seq<Event>, sizes: nat -> nat)
    requires source.WellFormed() && Understands(resolve, source)
    requires StartsSession(Run(source, resolve, Initial(invitedSize), events))
    ensures Invariant(source, Run(source, resolve, Initial(invitedSize), events))
    ensures var s := Run(source, resolve, Initial(invitedSize), events);
            var s' := Uncut(source, resolve, s, sizes, 0);
            && (s'.completed == s.completed + [s'.target] <==> GoesOn(source, s))
            && (GoesOn(source, s) ==> (HoldsWhole(source, s'.target) <==> SkipsWhole(source, s)))
            && (GoesOn(source, s) && s.stream.value.offset == 0 ==> SameTree(source, s'.target))
            && (!GoesOn(source, s) ==> s'.completed == s.completed)
            && s'.part == WithUpdate(WithState(s.part, Transferring), if GoesOn(source, s) then Completed else Failed,
                                     source.Size())
  {
    RunKeepsInvariant(source, resolve, invitedSize, events);
    SessionCompletesIff(source, resolve, Run(source, resolve, Initial(invitedSize), events), sizes);
  }

  lemma {:induction false} SessionCompletesIff(source: Source, resolve: Resolver, s: Protocol, sizes: nat -> nat)
    requires source.WellFormed() && Understands(resolve, source) && Invariant(source, s) && StartsSession(s)
    ensures var s' := Uncut(source, resolve, s, sizes, 0);
            && (s'.completed == s.completed + [s'.target] <==> GoesOn(source, s))
            && (GoesOn(source, s) ==> (HoldsWhole(source, s'.target) <==> SkipsWhole(source, s)))
            && (GoesOn(source, s) && s.stream.value.offset == 0 ==> SameTree(source, s'.target))
            && (!GoesOn(source, s) ==> s'.completed == s.completed)
            && s'.part == WithUpdate(WithState(s.part, Transferring), if GoesOn(source, s) then Completed else Failed,
                                     source.Size())
  {
    if GoesOn(source, s) {
      var whole := GoingOnCompletes(source, resolve, s, sizes);
      StartPlace(source, s.stream.value);
      if source.FolderSource? {
        WholeIffSkipped(source, s, whole);
        if s.stream.value.offset == 0 { FromStartIsSame(source, whole, FoundOnDisk(source, s)); }
      }
    } else {
      var target' := OtherwiseFails(source, resolve, s, sizes);
    }
  }

  lemma {:induction false} WholeIffSkipped(source: Source, s: Protocol, whole: Target)
    requires source.WellFormed() && source.FolderSource? && PayloadInvariant(source, whole) && whole.FolderTree?
    requires StartsSession(s) && StreamInvariant(source, s)
    requires WholeFrom(source.entries, FoundOnDisk(source, s), OnDisk(source, whole), s.stream.value.index)
    ensures HoldsWhole(source, whole) <==> SkipsWhole(source, s)
  {
    WholeIffAllWhole(source, whole);
    var entries, after, i := source.entries, OnDisk(source, whole), s.stream.value.index;
    if AllWhole(entries, after, |entries|) {
      forall j | 0 <= j < i
        ensures FoundOnDisk(source, s)[j] == entries[j].Size()
      {
        assert after[j] == entries[j].Size();
      }
    }
  }

  // ---- Accepting again ----

  /** The file at the place where a session over this payload starts holds exactly the bytes before it. */
  ghost predicate PlaceFits(source: Source, target: Target) {
    source.FolderSource? ==>
      var c := StartCursor(source, PayloadSize(target));
      c.fileOffset > 0 ==> c.index < |source.entries| && OnDisk(source, target)[c.index] == c.fileOffset
  }

  /** For a folder the offset that the receiver names is the size on disk exactly if its record names at least
      that size; an invitation without a size counts as 0. */
  lemma {:induction false} AcceptedOffsetIff(source: Source, s: Protocol)
    requires source.WellFormed() && source.FolderSource? && Invariant(source, s) && s.part.state.Interrupted?
    ensures var s' := OnAccept(source, s);
            && |s'.accepts| == |s.accepts| + 1 && PayloadSize(s'.target) == PayloadSize(s.target)
            && (s'.accepts[|s.accepts|] == PayloadSize(s'.target) <==>
                  PayloadSize(s.target) <= match s.part.fileSize case Some(size) => size case None => 0)
  {
    AcceptHandled(source, s);
    FolderFits(source, s.target);
    FolderFits(source, OnAccept(source, s).target);
  }

  /** An interrupted transfer is accepted again and the accept frame reaches the sender. */
  ghost function AcceptAndStart(source: Source, resolve: Resolver, s: Protocol): Protocol {
    Step(source, resolve, Step(source, resolve, s, AcceptInvitation), StartSending(|s.accepts|))
  }

  lemma {:induction false} LastAccept(source: Source, resolve: Resolver, s: Protocol)
    requires source.WellFormed() && Invariant(source, s) && s.part.state.Interrupted? && s.stream.None?
    ensures var s1, s2 := OnAccept(source, s), AcceptAndStart(source, resolve, s);
            && s1.pending.Some? && s2 == s1.(accepts := s.accepts,
                                             stream := Some(StartCursor(source, s1.pending.value.receivedSize)))
            && Invariant(source, s2) && StartsSession(s2)
            && s2.stream.value.offset == s2.pending.value.receivedSize
  {
    AcceptHandled(source, s);
    var s1 := OnAccept(source, s);
    assert s1.accepts[..|s.accepts|] == s.accepts && Without(s1.accepts, |s.accepts|) == s.accepts;
    StartHandled(source, s1.(accepts := s.accepts), s1.pending.value.receivedSize);
    if source.FolderSource? { FolderFits(source, s.target); }
  }

  /** Without a disturbance in between, the session that follows completes if and only if the recorded size is
      not below the size on disk and the place fits; for a file it always does. */
  lemma {:induction false} AcceptedSessionCompletesIff(source: Source, resolve: Resolver, s: Protocol, sizes: nat -> nat)
    requires source.WellFormed() && Understands(resolve, source) && Invariant(source, s)
    requires s.part.state.Interrupted? && s.stream.None?
    ensures Invariant(source, AcceptAndStart(source, resolve, s))
    ensures var s' := Uncut(source, resolve, AcceptAndStart(source, resolve, s), sizes, 0);
            s'.completed == s.completed + [s'.target]
            <==> (source.FolderSource? ==>
                    PayloadSize(s.target) <= RecordedSize(s.part) && PlaceFits(source, s.target))
  {
    LastAccept(source, resolve, s);
    SessionCompletesIff(source, resolve, AcceptAndStart(source, resolve, s), sizes);
    AcceptHandled(source, s);
    if source.FolderSource? {
      AcceptedOffsetIff(source, s);
      FolderFits(source, s.target);
    }
  }

  // ---- Resuming on request ----

  /** On every run a resume request is answered with one accept, of the size on disk when an entry or an
      interrupted part is found and of 0 otherwise. */
  lemma {:induction false} ResumeRequestAnswered(source: Source, resolve: Resolver, invitedSize: Option<nat>, events: seq<Event>)
    requires source.WellFormed() && Understands(resolve, source)
    ensures var s := Run(source, resolve, Initial(invitedSize), events);
            var s' := Step(source, resolve, s, ResumeRequest);
            && s'.accepts == s.accepts + [if PathFound(CloseStream(s)) then PayloadSize(s.target) else 0]
            && s'.pending.Some? && s'.stream.None?
  {
    RunKeepsInvariant(source, resolve, invitedSize, events);
    ResumeRequestHandled(source, Run(source, resolve, Initial(invitedSize), events));
  }

  /** The sender asks to resume, and the accept frame that answers reaches it. */
  ghost function RequestAndStart(source: Source, resolve: Resolver, s: Protocol): Protocol {
    Step(source, resolve, Step(source, resolve, s, ResumeRequest), StartSending(|s.accepts|))
  }

  lemma {:induction false} RequestStarts(source: Source, resolve: Resolver, s: Protocol)
    requires source.WellFormed() && Invariant(source, s)
    ensures var s1, s2 := OnResumeRequest(source, s), RequestAndStart(source, resolve, s);
            && s1.pending.Some? && s2 == s1.(accepts := s.accepts,
                                             stream := Some(StartCursor(source, s1.pending.value.receivedSize)))
            && Invariant(source, s2) && StartsSession(s2) && PayloadSize(s1.target) <= source.Size()
            && s2.stream.value.offset == s2.pending.value.receivedSize == PayloadSize(s2.target)
  {
    ResumeRequestHandled(source, s);
    var s1 := OnResumeRequest(source, s);
    assert s1.accepts[..|s.accepts|] == s.accepts && Without(s1.accepts, |s.accepts|) == s.accepts;
    StartHandled(source, s1.(accepts := s.accepts), s1.pending.value.receivedSize);
    if source.FolderSource? {
      FolderFits(source, s.target);
      FolderFits(source, s1.target);
    }
  }

  /** Without a disturbance in between, the session that follows always completes for a file, and for a folder
      if and only if the place fits in what was found. */
  lemma {:induction false} ResumedSessionCompletesIff(source: Source, resolve: Resolver, s: Protocol, sizes: nat -> nat)
    requires source.WellFormed() && Understands(resolve, source) && Invariant(source, s)
    ensures Invariant(source, RequestAndStart(source, resolve, s))
    ensures var s' := Uncut(source, resolve, RequestAndStart(source, resolve, s), sizes, 0);
            s'.completed == s.completed + [s'.target]
            <==> (source.FolderSource? && PathFound(CloseStream(s)) ==> PlaceFits(source, s.target))
  {
    RequestStarts(source, resolve, s);
    ResumeRequestHandled(source, s);
    SessionCompletesIff(source, resolve, RequestAndStart(source, resolve, s), sizes);
    if source.FolderSource? {
      FolderFits(source, s.target);
      FolderFits(source, OnResumeRequest(source, s).target);
    }
  }

  // ---- Accept frames that are lost ----

  lemma {:induction false} WithoutOne(accepts: seq<nat>, k: nat)
    requires k < |accepts|
    ensures multiset(Without(accepts, k)) == multiset(accepts) - multiset{accepts[k]}
  {
    assert accepts == accepts[..k] + [accepts[k]] + accepts[k + 1..];
  }

  /** A lost accept frame takes the part back to where it can be accepted again if it was a resumption, and
      fails it otherwise; entry and payload stay, and a final state is not touched. */
  lemma {:induction false} LostAccept(source: Source, resolve: Resolver, s: Protocol, k: nat, recoverable: bool)
    requires k < |s.accepts|
    ensures var s' := Step(source, resolve, s, AcceptLost(k, recoverable));
            && (s.part.state.Transferring? ==>
                  s'.part.state == (if recoverable then Interrupted else Failed) && (CanAccept(s') <==> recoverable))
            && (s.part.state.Completed? || s.part.state.Cancelled? || s.part.state.Rejected? ==> s'.part == s.part)
            && s'.part.fileSize == s.part.fileSize
            && s' == s.(part := s'.part, accepts := s'.accepts)
    ensures multiset(Step(source, resolve, s, AcceptLost(k, recoverable)).accepts) == multiset(s.accepts) - multiset{s.accepts[k]}
  {
    WithoutOne(s.accepts, k);
  }
}
