/** What a completed folder holds after runs in which sessions may start over an old payload. */
module ResumeSafety {
  import opened Prelude
  import opened FolderPaths
  import opened TransferSource
  import opened TransferProducer
  import opened TransferReceiver
  import opened TransferProgress
  import opened ResumeProtocol
  import opened ResumeSessions
  import opened ResumeAttachment

  /** The folder holds exactly the stream up to some position. */
  ghost predicate Settled(source: Source, target: Target) {
    source.FolderSource? ==> HoldsExactly(source.entries, TreeOf(target), TreeSize(TreeOf(target)))
  }

  /** The folder held exactly the stream up to some position, and was then sent again up to `again`. */
  ghost predicate Rewriting(source: Source, target: Target, again: nat) {
    source.FolderSource? ==>
      exists before: nat :: before <= source.Size() && AreRewritten(source.entries, OnDisk(source, target), before, again)
  }

  // ---- Between the two ----

  lemma {:induction false} EmptySettled(source: Source, target: Target)
    requires source.WellFormed() && TreeOf(target) == map[]
    ensures Settled(source, target)
  {
    if source.FolderSource? {
      EmptyTree(source.entries);
      ExactSize(source.entries, map[], 0);
    }
  }

  lemma {:induction false} PrefixWithin(entries: seq<FolderEntry>, counts: seq<nat>, received: nat)
    requires ArePrefix(entries, counts, received)
    ensures ArePrefix(entries, counts, Min(received, Start(entries, |entries|)))
  {
    forall j {:trigger counts[j]} | 0 <= j < |counts|
      ensures CoveredAt(entries, j, received) == CoveredAt(entries, j, Min(received, Start(entries, |entries|)))
    {
      StartMonotone(entries, j, |entries|);
    }
  }

  /** Stopping at a clean position leaves a settled folder. */
  lemma {:induction false} SettlesAt(source: Source, target: Target, again: nat)
    requires source.WellFormed() && source.FolderSource? && PayloadInvariant(source, target)
    requires Rewriting(source, target, again) && again <= source.Size()
    requires CleanPosition(source.entries, OnDisk(source, target), again)
    ensures Settled(source, target)
  {
    var entries, counts := source.entries, OnDisk(source, target);
    var before: nat :| before <= source.Size() && AreRewritten(entries, counts, before, again);
    RewriteIsCleanIff(entries, counts, before, again);
    var received: nat :| ArePrefix(entries, counts, received);
    PrefixWithin(entries, counts, received);
    ExactSize(entries, TreeOf(target), Min(received, source.Size()));
  }

  /** A session that goes on at a place that fits, not beyond what is on disk, sends again from there. */
  lemma {:induction false} FitsIsRewritten(entries: seq<FolderEntry>, counts: seq<nat>, size: nat, i: nat, offset: nat)
    requires ArePrefix(entries, counts, size) && offset <= size
    requires i <= |entries| && Start(entries, i) <= offset && FitsAt(entries, counts, i, offset)
    requires if i < |entries| then offset == Start(entries, i) || offset < Start(entries, i) + entries[i].Size()
             else offset == Start(entries, i)
    ensures AreRewritten(entries, counts, size, offset)
  {
    forall j {:trigger counts[j]} | 0 <= j < |counts|
      ensures counts[j] == CoveredAt(entries, j, if Start(entries, j) < offset then offset else size)
    {
      if offset == Start(entries, i) { CoveredAgain(entries, size, i, j); }
    }
  }

  lemma {:induction false} NextPlace(source: Source, c: Cursor)
    requires source.FolderSource? && ValidCursor(source, c)
    ensures var entries, i := source.entries, NextEntry(source, c);
            && i <= |entries| && Start(entries, i) <= c.offset
            && if i < |entries| then c.offset == Start(entries, i) || c.offset < Start(entries, i) + entries[i].Size()
               else c.offset == Start(entries, i)
  {}

  lemma {:induction false} AttachesRewriting(source: Source, s: Protocol)
    requires source.WellFormed() && source.FolderSource? && Invariant(source, s) && Attached(source, s)
    requires Settled(source, s.target) && s.stream.value.offset <= PayloadSize(s.target)
    ensures Rewriting(source, s.target, s.stream.value.offset)
  {
    NextPlace(source, s.stream.value);
    FitsIsRewritten(source.entries, OnDisk(source, s.target), PayloadSize(s.target), NextEntry(source, s.stream.value),
                    s.stream.value.offset);
  }

  lemma {:induction false} EmptyEntryChunk(entries: seq<FolderEntry>, counts: seq<nat>, before: nat, again: nat, i: nat)
    requires i < |entries| && entries[i].Size() == 0 && AreRewritten(entries, counts, before, again)
    ensures counts[i := 0] == counts
  {}

  lemma {:induction false} ChunkRewrites(entries: seq<FolderEntry>, counts: seq<nat>, before: nat, c: Cursor, c': Cursor,
        i: nat, from: nat, to: nat)
    requires AreRewritten(entries, counts, before, c.offset) && Carries(entries, c, c', i, from, to)
    ensures AreRewritten(entries, counts[i := to], before, c'.offset)
  {
    if from < to {
      RewriteGoesOn(entries, counts, before, i, from, to);
    } else {
      EmptyEntryChunk(entries, counts, before, c.offset, i);
    }
  }

  /** A chunk that is taken moves the rewriting on. */
  lemma {:induction false} ExtendsRewriting(source: Source, target: Target, target': Target, c: Cursor, c': Cursor)
    requires source.FolderSource? && Rewriting(source, target, c.offset) && Extended(source, target, target', c, c')
    ensures Rewriting(source, target', c'.offset)
  {
    var before: nat :| before <= source.Size() && AreRewritten(source.entries, OnDisk(source, target), before, c.offset);
    var i, from, to := CountsExtended(source.entries, target.tree, target'.tree, c, c');
    ChunkRewrites(source.entries, OnDisk(source, target), before, c, c', i, from, to);
    assert AreRewritten(source.entries, OnDisk(source, target'), before, c'.offset);
  }

  /** Sent again to its end, the folder is whole. */
  lemma {:induction false} RewrittenIsWhole(source: Source, target: Target)
    requires source.WellFormed() && source.FolderSource? && target.FolderTree? && PayloadInvariant(source, target)
    requires Rewriting(source, target, source.Size())
    ensures HoldsWhole(source, target) && Settled(source, target)
  {
    var entries, counts := source.entries, OnDisk(source, target);
    var before: nat :| before <= source.Size() && AreRewritten(entries, counts, before, source.Size());
    RewriteAtBoundary(entries, counts, before, |entries|);
    forall j | 0 <= j < |entries|
      ensures counts[j] == entries[j].Size()
    {
      StartMonotone(entries, j, |entries|);
    }
    WholeIffAllWhole(source, target);
    ExactSize(entries, target.tree, source.Size());
  }

  // ---- Clean runs ----

  /** How far the session had come: its position, or the last one if it is over. */
  function Reached(s: Protocol, s': Protocol): nat
    requires s.stream.Some?
  {
    if s'.stream.Some? && s'.stream.value.offerSent then s'.stream.value.offset else s.stream.value.offset
  }

  /** A step that ends a running session of a folder, other than by completing it, does so at a clean
      position. */
  ghost predicate CleanStep(source: Source, s: Protocol, s': Protocol) {
    source.FolderSource? && Attached(source, s) && !Attached(source, s') && s'.completed == s.completed ==>
      CleanPosition(source.entries, OnDisk(source, s'.target), Reached(s, s'))
  }

  ghost predicate CleanRun(source: Source, resolve: Resolver, s: Protocol, events: seq<Event>) {
    events == [] ||
      var before := Run(source, resolve, s, events[..|events| - 1]);
      && CleanRun(source, resolve, s, events[..|events| - 1])
      && CleanStep(source, before, Step(source, resolve, before, events[|events| - 1]))
  }

  ghost predicate FolderInvariant(source: Source, s: Protocol) {
    if Attached(source, s) then Rewriting(source, s.target, s.stream.value.offset) else Settled(source, s.target)
  }

  ghost predicate CleanInvariant(source: Source, s: Protocol) {
    && Invariant(source, s) && FolderInvariant(source, s)
    && forall i | 0 <= i < |s.completed| :: HoldsWhole(source, s.completed[i])
  }

  /** A step that writes no file: a session may end, begin or stay where it is. */
  lemma {:induction false} KeptStep(source: Source, s: Protocol, s': Protocol)
    requires source.WellFormed() && source.FolderSource? && CleanInvariant(source, s) && Invariant(source, s')
    requires CleanStep(source, s, s') && s'.completed == s.completed
    requires TreeOf(s'.target) == TreeOf(s.target) || TreeOf(s'.target) == map[]
    requires Attached(source, s) ==> Reached(s, s') == s.stream.value.offset
    requires Attached(source, s') ==>
               || (Attached(source, s) && s'.stream == s.stream && TreeOf(s'.target) == TreeOf(s.target))
               || (!Attached(source, s) && s'.stream.value.offset <= PayloadSize(s'.target))
    ensures CleanInvariant(source, s')
  {
    if TreeOf(s'.target) != TreeOf(s.target) {
      EmptySettled(source, s'.target);
    } else if Attached(source, s) && !Attached(source, s') {
      SettlesAt(source, s'.target, s.stream.value.offset);
    }
    if !Attached(source, s) && Attached(source, s') {
      AttachesRewriting(source, s');
    }
  }

  /** A refused chunk may add directories but no bytes. */
  lemma {:induction false} SameCountsSettled(source: Source, target: Target, target': Target)
    requires source.WellFormed() && source.FolderSource? && Settled(source, target) && PayloadInvariant(source, target')
    requires OnDisk(source, target') == OnDisk(source, target)
    ensures Settled(source, target')
  {
    ExactSize(source.entries, TreeOf(target'), TreeSize(TreeOf(target)));
  }

  lemma {:induction false} CleanChunk(source: Source, resolve: Resolver, s: Protocol, c': Cursor, frame: TransferFrame)
    requires source.WellFormed() && Understands(resolve, source) && source.FolderSource? && CleanInvariant(source, s)
    requires s.stream.Some? && Sends(source, s.stream.value, c', frame) && frame.Chunk?
    requires CleanStep(source, s, OnChunk(resolve, s.(stream := Some(c')), frame))
    ensures CleanInvariant(source, OnChunk(resolve, s.(stream := Some(c')), frame))
  {
    ChunkKeepsInvariant(source, resolve, s, c', frame);
    if s.pending.Some? {
      if Attached(source, s) {
        var target' := ChunkTaken(source, resolve, s, c', frame);
        ExtendsRewriting(source, s.target, target', s.stream.value, c');
        if c'.offset > s.pending.value.expectedSize { SettlesAt(source, target', c'.offset); }
      } else {
        ChunkRefused(source, resolve, s, c', frame);
        SameCountsSettled(source, s.target, OnChunk(resolve, s.(stream := Some(c')), frame).target);
      }
    }
  }

  lemma {:induction false} CleanComplete(source: Source, s: Protocol, c': Cursor, frame: TransferFrame)
    requires source.WellFormed() && source.FolderSource? && CleanInvariant(source, s)
    requires s.stream.Some? && Sends(source, s.stream.value, c', frame) && !frame.Chunk?
    requires CleanStep(source, s, OnComplete(s.(stream := Some(c')), source.Size()))
    ensures CleanInvariant(source, OnComplete(s.(stream := Some(c')), source.Size()))
  {
    CompleteKeepsInvariant(source, s, c', frame);
    if s.pending.Some? {
      CompleteHandled(source, s, c', frame);
      if Attached(source, s) && s.pending.value.expectedSize == source.Size() {
        RewrittenIsWhole(source, s.target);
      } else {
        KeptStep(source, s, OnComplete(s.(stream := Some(c')), source.Size()));
      }
    }
  }

  lemma {:induction false} CleanOffer(source: Source, resolve: Resolver, s: Protocol, want: nat)
    requires source.WellFormed() && source.FolderSource? && CleanInvariant(source, s)
    requires StartsSession(s) && want > 0
    ensures CleanInvariant(source, OnDeliver(source, resolve, s, want))
  {
    OfferKeepsInvariant(source, resolve, s, want);
    OfferHandled(source, s.(stream := Some(s.stream.value.(offerSent := true))), false);
    FolderFits(source, s.target);
    FolderFits(source, OnDeliver(source, resolve, s, want).target);
    KeptStep(source, s, OnDeliver(source, resolve, s, want));
  }

  lemma {:induction false} CleanDeliver(source: Source, resolve: Resolver, s: Protocol, want: nat)
    requires source.WellFormed() && Understands(resolve, source) && source.FolderSource? && CleanInvariant(source, s)
    requires s.stream.Some? && want > 0 && CleanStep(source, s, OnDeliver(source, resolve, s, want))
    ensures CleanInvariant(source, OnDeliver(source, resolve, s, want))
  {
    if !s.stream.value.offerSent {
      CleanOffer(source, resolve, s, want);
    } else if s.stream.value.completeSent {
      NextStep(source, s.stream.value, want);
    } else {
      var c', frame := FrameSent(source, s.stream.value, want);
      if frame.Chunk? {
        CleanChunk(source, resolve, s, c', frame);
      } else {
        CleanComplete(source, s, c', frame);
      }
    }
  }

  lemma {:induction false} CleanAccept(source: Source, s: Protocol)
    requires source.WellFormed() && source.FolderSource? && CleanInvariant(source, s) && CanAccept(s)
    requires CleanStep(source, s, OnAccept(source, s))
    ensures CleanInvariant(source, OnAccept(source, s))
  {
    AcceptHandled(source, s);
    FolderFits(source, s.target);
    FolderFits(source, OnAccept(source, s).target);
    KeptStep(source, s, OnAccept(source, s));
  }

  lemma {:induction false} CleanStart(source: Source, s: Protocol, offset: nat)
    requires source.WellFormed() && source.FolderSource? && CleanInvariant(source, s)
    requires CleanStep(source, s, OnStart(source, s, offset))
    ensures CleanInvariant(source, OnStart(source, s, offset))
  {
    StartHandled(source, s, offset);
    KeptStep(source, s, OnStart(source, s, offset));
  }

  lemma {:induction false} CleanSenderStep(source: Source, resolve: Resolver, s: Protocol, event: Event)
    requires source.WellFormed() && Understands(resolve, source) && source.FolderSource? && CleanInvariant(source, s)
    requires CleanStep(source, s, Step(source, resolve, s, event))
    requires event.StartSending? || event.SenderSends? || event.Deliver? || event.Cut?
    ensures CleanInvariant(source, Step(source, resolve, s, event))
  {
    match event
    case StartSending(k) => if k < |s.accepts| { CleanStart(source, s.(accepts := Without(s.accepts, k)), s.accepts[k]); }
    case SenderSends => CleanStart(source, s, 0);
    case Deliver(want) => if s.stream.Some? && want > 0 { CleanDeliver(source, resolve, s, want); }
    case Cut => CloseHandled(source, s); KeptStep(source, s, CloseStream(s));
  }

  lemma {:induction false} CleanReceiverStep(source: Source, resolve: Resolver, s: Protocol, event: Event)
    requires source.WellFormed() && Understands(resolve, source) && source.FolderSource? && CleanInvariant(source, s)
    requires CleanStep(source, s, Step(source, resolve, s, event))
    requires !event.StartSending? && !event.SenderSends? && !event.Deliver? && !event.Cut?
    ensures CleanInvariant(source, Step(source, resolve, s, event))
  {
    match event
    case AcceptInvitation => if CanAccept(s) { CleanAccept(source, s); }
    case AcceptLost(_, _) =>
    case AcceptDropped(_) =>
    case ResumeRequest =>
      ResumeRequestHandled(source, s);
      KeptStep(source, s, OnResumeRequest(source, s));
    case OtherStreamClosed =>
      CloseHandled(source, s);
      KeptStep(source, s, Interrupt(s));
    case ReceiverRestarted => KeptStep(source, s, s.(pending := None, stream := None));
    case HistoryLoaded =>
  }

  lemma {:induction false} CleanStepKeeps(source: Source, resolve: Resolver, s: Protocol, event: Event)
    requires source.WellFormed() && Understands(resolve, source) && source.FolderSource? && CleanInvariant(source, s)
    requires CleanStep(source, s, Step(source, resolve, s, event))
    ensures CleanInvariant(source, Step(source, resolve, s, event))
  {
    if event.StartSending? || event.SenderSends? || event.Deliver? || event.Cut? {
      CleanSenderStep(source, resolve, s, event);
    } else {
      CleanReceiverStep(source, resolve, s, event);
    }
  }

  lemma {:induction false} CleanInitial(source: Source, invitedSize: Option<nat>)
    requires source.WellFormed()
    ensures CleanInvariant(source, Initial(invitedSize))
  {
    InitialHolds(source, invitedSize);
    EmptySettled(source, Missing);
  }

  /** Safety over all runs: every payload whose complete frame was accepted holds every non-empty source file
      with exactly its bytes, however often sessions were cut, lost, requested again or started over, provided
      that for a folder none of them stopped in the middle of a file while a later one was on disk. */
  lemma {:induction false} CompletedIsWhole(source: Source, resolve: Resolver, invitedSize: Option<nat>, events: seq<Event>)
    requires source.WellFormed() && Understands(resolve, source)
    requires source.FolderSource? ==> CleanRun(source, resolve, Initial(invitedSize), events)
    ensures var s := Run(source, resolve, Initial(invitedSize), events);
            && (source.FolderSource? ==> CleanInvariant(source, s))
            && forall i | 0 <= i < |s.completed| :: HoldsWhole(source, s.completed[i])
  {
    RunKeepsInvariant(source, resolve, invitedSize, events);
    if source.FolderSource? { CleanRunKeeps(source, resolve, invitedSize, events); }
  }

  lemma {:induction false} CleanRunKeeps(source: Source, resolve: Resolver, invitedSize: Option<nat>, events: seq<Event>)
    requires source.WellFormed() && Understands(resolve, source) && source.FolderSource?
    requires CleanRun(source, resolve, Initial(invitedSize), events)
    ensures CleanInvariant(source, Run(source, resolve, Initial(invitedSize), events))
  {
    CleanInitial(source, invitedSize);
    if events != [] {
      CleanRunKeeps(source, resolve, invitedSize, events[..|events| - 1]);
      CleanStepKeeps(source, resolve, Run(source, resolve, Initial(invitedSize), events[..|events| - 1]), events[|events| - 1]);
    }
  }

  // ---- Runs in which the receiver counts what is on disk ----

  /** What the receiver of a running session has counted is what it would measure. */
  ghost predicate CountsDisk(source: Source, s: Protocol) {
    source.FolderSource? && Attached(source, s) ==> PayloadSize(s.target) == s.stream.value.offset
  }

  ghost predicate CountingRun(source: Source, resolve: Resolver, s: Protocol, events: seq<Event>) {
    CountsDisk(source, Run(source, resolve, s, events)) && (events == [] || CountingRun(source, resolve, s, events[..|events| - 1]))
  }

  /** Then nothing was on disk beyond the position. */
  lemma {:induction false} CountedIsPrefix(entries: seq<FolderEntry>, counts: seq<nat>, before: nat, again: nat, n: nat)
    requires AreRewritten(entries, counts, before, again) && n <= |entries|
    ensures Sum(counts, n) >= Min(again, Start(entries, n))
    ensures Sum(counts, n) == Min(again, Start(entries, n)) ==>
              forall j | 0 <= j < n :: counts[j] == CoveredAt(entries, j, again)
  {
    if n > 0 { CountedIsPrefix(entries, counts, before, again, n - 1); }
  }

  lemma {:induction false} CountedSettles(source: Source, s: Protocol)
    requires source.WellFormed() && source.FolderSource? && CleanInvariant(source, s) && Attached(source, s) && CountsDisk(source, s)
    ensures ArePrefix(source.entries, OnDisk(source, s.target), s.stream.value.offset)
  {
    var entries, counts, again := source.entries, OnDisk(source, s.target), s.stream.value.offset;
    var before: nat :| before <= source.Size() && AreRewritten(entries, counts, before, again);
    TreeSizeIsSum(entries, s.target.tree);
    CountedIsPrefix(entries, counts, before, again, |entries|);
  }

  lemma {:induction false} PrefixIsClean(entries: seq<FolderEntry>, counts: seq<nat>, received: nat, offset: nat)
    requires ArePrefix(entries, counts, received) && received <= offset
    ensures CleanPosition(entries, counts, offset)
  {}

  /** The next chunk leaves a prefix too. */
  lemma {:induction false} CountedChunkIsClean(source: Source, s: Protocol, target': Target, c': Cursor)
    requires source.WellFormed() && source.FolderSource? && CleanInvariant(source, s) && Attached(source, s) && CountsDisk(source, s)
    requires Extended(source, s.target, target', s.stream.value, c')
    ensures CleanPosition(source.entries, OnDisk(source, target'), c'.offset)
  {
    var entries, counts, c := source.entries, OnDisk(source, s.target), s.stream.value;
    CountedSettles(source, s);
    var i, from, to := CountsExtended(entries, s.target.tree, target'.tree, c, c');
    ChunkRewrites(entries, counts, c.offset, c, c', i, from, to);
    NoLaterFile(entries, OnDisk(source, target'), c.offset, c'.offset);
  }

  lemma {:induction false} NoLaterFile(entries: seq<FolderEntry>, counts: seq<nat>, before: nat, again: nat)
    requires AreRewritten(entries, counts, before, again) && before <= again
    ensures CleanPosition(entries, counts, again)
  {}

  /** Steps that write no file keep the tree, or start a fresh one. */
  lemma {:induction false} TreeKept(source: Source, resolve: Resolver, s: Protocol, event: Event)
    requires source.WellFormed() && source.FolderSource? && Invariant(source, s) && !event.Deliver?
    ensures var s' := Step(source, resolve, s, event);
            && (TreeOf(s'.target) == TreeOf(s.target) || TreeOf(s'.target) == map[])
            && (Attached(source, s) ==> Reached(s, s') == s.stream.value.offset)
  {
    match event
    case AcceptInvitation => if CanAccept(s) { AcceptHandled(source, s); }
    case ResumeRequest => ResumeRequestHandled(source, s);
    case StartSending(k) => if k < |s.accepts| { StartHandled(source, s.(accepts := Without(s.accepts, k)), s.accepts[k]); }
    case SenderSends => StartHandled(source, s, 0);
    case Cut => CloseHandled(source, s);
    case _ =>
  }

  lemma {:induction false} CountingChunkIsClean(source: Source, resolve: Resolver, s: Protocol, c': Cursor, frame: TransferFrame)
    requires source.WellFormed() && Understands(resolve, source) && source.FolderSource?
    requires CleanInvariant(source, s) && CountsDisk(source, s) && Attached(source, s)
    requires Sends(source, s.stream.value, c', frame) && frame.Chunk?
    ensures CleanStep(source, s, OnChunk(resolve, s.(stream := Some(c')), frame))
  {
    var target' := ChunkTaken(source, resolve, s, c', frame);
    CountedChunkIsClean(source, s, target', c');
  }

  lemma {:induction false} CountingCompleteIsClean(source: Source, s: Protocol, c': Cursor, frame: TransferFrame)
    requires source.WellFormed() && source.FolderSource?
    requires CleanInvariant(source, s) && CountsDisk(source, s) && Attached(source, s)
    requires Sends(source, s.stream.value, c', frame) && !frame.Chunk?
    ensures CleanStep(source, s, OnComplete(s.(stream := Some(c')), source.Size()))
  {
    CompleteHandled(source, s, c', frame);
    CountedSettles(source, s);
    PrefixIsClean(source.entries, OnDisk(source, s.target), s.stream.value.offset, s.stream.value.offset);
  }

  lemma {:induction false} CountingDeliverIsClean(source: Source, resolve: Resolver, s: Protocol, want: nat)
    requires source.WellFormed() && Understands(resolve, source) && source.FolderSource?
    requires CleanInvariant(source, s) && CountsDisk(source, s) && Attached(source, s) && want > 0
    ensures CleanStep(source, s, OnDeliver(source, resolve, s, want))
  {
    var c', frame := FrameSent(source, s.stream.value, want);
    if frame.Chunk? {
      CountingChunkIsClean(source, resolve, s, c', frame);
    } else {
      CountingCompleteIsClean(source, s, c', frame);
    }
  }

  lemma {:induction false} CountingStepIsClean(source: Source, resolve: Resolver, s: Protocol, event: Event)
    requires source.WellFormed() && Understands(resolve, source) && source.FolderSource?
    requires CleanInvariant(source, s) && CountsDisk(source, s)
    ensures CleanStep(source, s, Step(source, resolve, s, event))
  {
    if Attached(source, s) {
      if event.Deliver? {
        if event.want > 0 { CountingDeliverIsClean(source, resolve, s, event.want); }
      } else {
        TreeKept(source, resolve, s, event);
        CountedSettles(source, s);
        PrefixIsClean(source.entries, OnDisk(source, s.target), s.stream.value.offset, s.stream.value.offset);
      }
    }
  }

  lemma {:induction false} CountingRunIsClean(source: Source, resolve: Resolver, invitedSize: Option<nat>, events: seq<Event>)
    requires source.WellFormed() && Understands(resolve, source) && source.FolderSource?
    requires CountingRun(source, resolve, Initial(invitedSize), events)
    ensures CleanRun(source, resolve, Initial(invitedSize), events)
  {
    if events != [] {
      CountingRunIsClean(source, resolve, invitedSize, events[..|events| - 1]);
      CleanRunKeeps(source, resolve, invitedSize, events[..|events| - 1]);
      CountingStepIsClean(source, resolve, Run(source, resolve, Initial(invitedSize), events[..|events| - 1]), events[|events| - 1]);
    }
  }

  /** A session is taken up where the payload ends: from a step that attaches it, the receiver counts on from
      the size on disk. */
  ghost predicate StartsCounted(source: Source, s: Protocol, s': Protocol) {
    source.FolderSource? && Attached(source, s') && !Attached(source, s) ==> PayloadSize(s'.target) == s'.stream.value.offset
  }

  ghost predicate StartsCountedRun(source: Source, resolve: Resolver, s: Protocol, events: seq<Event>) {
    events == [] ||
      var before := Run(source, resolve, s, events[..|events| - 1]);
      && StartsCountedRun(source, resolve, s, events[..|events| - 1])
      && StartsCounted(source, before, Step(source, resolve, before, events[|events| - 1]))
  }

  /** An offer attaches a session otherwise exactly if it goes on without a pending entry over an old payload. */
  lemma {:induction false} OfferStartsCountedIff(source: Source, resolve: Resolver, s: Protocol, want: nat)
    requires source.WellFormed() && source.FolderSource? && Invariant(source, s) && StartsSession(s) && want > 0
    ensures StartsCounted(source, s, OnDeliver(source, resolve, s, want))
       <==> (s.pending.None? && GoesOn(source, s) && PathFound(s) ==> PayloadSize(s.target) == 0)
  {
    var target' := OfferDelivered(source, resolve, s, want);
    OfferHandled(source, s.(stream := Some(s.stream.value.(offerSent := true))), false);
    EmptyTree(source.entries);
    ExactSize(source.entries, map[], 0);
    FolderFits(source, s.target);
    FolderFits(source, OnDeliver(source, resolve, s, want).target);
  }

  lemma {:induction false} CountedPrefixGrows(entries: seq<FolderEntry>, counts: seq<nat>, before: nat, again: nat)
    requires AreRewritten(entries, counts, before, again) && before <= again
    ensures ArePrefix(entries, counts, again)
  {}

  /** A chunk that is taken keeps the count in step with the disk. */
  lemma {:induction false} CountedChunk(source: Source, s: Protocol, target': Target, c': Cursor)
    requires source.WellFormed() && source.FolderSource? && CleanInvariant(source, s) && Attached(source, s) && CountsDisk(source, s)
    requires Extended(source, s.target, target', s.stream.value, c')
    ensures PayloadSize(target') == c'.offset
  {
    var entries, counts, c := source.entries, OnDisk(source, s.target), s.stream.value;
    CountedSettles(source, s);
    var i, from, to := CountsExtended(entries, s.target.tree, target'.tree, c, c');
    ChunkRewrites(entries, counts, c.offset, c, c', i, from, to);
    CountedPrefixGrows(entries, OnDisk(source, target'), c.offset, c'.offset);
    StartMonotone(entries, i, |entries|);
    ExactSize(entries, target'.tree, c'.offset);
  }

  lemma {:induction false} CountingStepHolds(source: Source, resolve: Resolver, s: Protocol, event: Event)
    requires source.WellFormed() && Understands(resolve, source) && source.FolderSource?
    requires CleanInvariant(source, s) && CountsDisk(source, s)
    requires StartsCounted(source, s, Step(source, resolve, s, event))
    ensures CountsDisk(source, Step(source, resolve, s, event))
  {
    var s' := Step(source, resolve, s, event);
    if Attached(source, s) && Attached(source, s') {
      if event.Deliver? {
        if event.want > 0 {
          var c', target' := StaysAttachedByChunk(source, resolve, s, event.want);
          CountedChunk(source, s, target', c');
        }
      } else {
        StaysAttached(source, resolve, s, event);
        StepKeepsInvariant(source, resolve, s, event);
        FolderFits(source, s.target);
        FolderFits(source, s'.target);
      }
    }
  }

  /** Where every session is taken up at the end of the payload, the count stays in step with the disk. */
  lemma {:induction false} StartsCountedIsCounting(source: Source, resolve: Resolver, invitedSize: Option<nat>, events: seq<Event>)
    requires source.WellFormed() && Understands(resolve, source) && source.FolderSource?
    requires StartsCountedRun(source, resolve, Initial(invitedSize), events)
    ensures CountingRun(source, resolve, Initial(invitedSize), events)
  {
    if events != [] {
      var front := events[..|events| - 1];
      StartsCountedIsCounting(source, resolve, invitedSize, front);
      CountingRunIsClean(source, resolve, invitedSize, front);
      CleanRunKeeps(source, resolve, invitedSize, front);
      CountingStepHolds(source, resolve, Run(source, resolve, Initial(invitedSize), front), events[|events| - 1]);
    }
  }

  /** However often sessions are cut, after any frame: as long as each of them is taken up at the size on disk,
      every payload whose complete frame was accepted is whole. */
  lemma {:induction false} CountedIsWhole(source: Source, resolve: Resolver, invitedSize: Option<nat>, events: seq<Event>)
    requires source.WellFormed() && Understands(resolve, source)
    requires StartsCountedRun(source, resolve, Initial(invitedSize), events)
    ensures var s := Run(source, resolve, Initial(invitedSize), events);
            forall i | 0 <= i < |s.completed| :: HoldsWhole(source, s.completed[i])
  {
    if source.FolderSource? {
      StartsCountedIsCounting(source, resolve, invitedSize, events);
      CountingRunIsClean(source, resolve, invitedSize, events);
    }
    CompletedIsWhole(source, resolve, invitedSize, events);
  }

  /** Both for a receiver that saves into a target root, for entries with safe paths of at most 32 KiB. */
  lemma {:induction false} CompletedBelowRootIsWhole(root: Path, source: Source, invitedSize: Option<nat>, events: seq<Event>)
    requires IsTargetRoot(root) && source.WellFormed()
    requires source.FolderSource? ==>
      forall i | 0 <= i < |source.entries| ::
        IsEntryPath(source.entries[i].path) && |Join(source.entries[i].path)| <= MAX_RELATIVE_PATH_BYTES
    requires source.FolderSource? ==>
      || CleanRun(source, RootResolver(root), Initial(invitedSize), events)
      || StartsCountedRun(source, RootResolver(root), Initial(invitedSize), events)
    ensures var s := Run(source, RootResolver(root), Initial(invitedSize), events);
            forall i | 0 <= i < |s.completed| :: HoldsWhole(source, s.completed[i])
  {
    RootUnderstands(root, source);
    if source.FolderSource? && !CleanRun(source, RootResolver(root), Initial(invitedSize), events) {
      CountedIsWhole(source, RootResolver(root), invitedSize, events);
    } else {
      CompletedIsWhole(source, RootResolver(root), invitedSize, events);
    }
  }

  // ---- Accepting again after a clean run ----

  lemma {:induction false} SettledPlaceFits(source: Source, target: Target)
    requires source.WellFormed() && PayloadInvariant(source, target) && Settled(source, target)
    ensures PlaceFits(source, target)
  {
    if source.FolderSource? {
      FolderFits(source, target);
      StartCursorValid(source, PayloadSize(target));
    }
  }

  /** After every clean run the session that follows an accept completes if and only if the recorded size is
      not below the size on disk, which the receiver can see before it accepts. */
  lemma {:induction false} AcceptedAfterCleanRunIff(source: Source, resolve: Resolver, invitedSize: Option<nat>, events: seq<Event>,
        s: Protocol, sizes: nat -> nat)
    requires source.WellFormed() && Understands(resolve, source) && source.FolderSource?
    requires CleanRun(source, resolve, Initial(invitedSize), events) && s == Run(source, resolve, Initial(invitedSize), events)
    requires s.part.state.Interrupted? && s.stream.None?
    ensures Invariant(source, AcceptAndStart(source, resolve, s))
    ensures var s' := Uncut(source, resolve, AcceptAndStart(source, resolve, s), sizes, 0);
            s'.completed == s.completed + [s'.target] <==> PayloadSize(s.target) <= RecordedSize(s.part)
  {
    CleanRunKeeps(source, resolve, invitedSize, events);
    SettledPlaceFits(source, s.target);
    AcceptedSessionCompletesIff(source, resolve, s, sizes);
  }

  /** After every clean run a resume request that is not disturbed leads to completion. */
  lemma {:induction false} ResumedAfterCleanRunCompletes(source: Source, resolve: Resolver, invitedSize: Option<nat>,
        events: seq<Event>, s: Protocol, sizes: nat -> nat)
    requires source.WellFormed() && Understands(resolve, source)
    requires source.FolderSource? ==> CleanRun(source, resolve, Initial(invitedSize), events)
    requires s == Run(source, resolve, Initial(invitedSize), events)
    requires source.FolderSource? ==> !Attached(source, s)
    ensures Invariant(source, RequestAndStart(source, resolve, s))
    ensures var s' := Uncut(source, resolve, RequestAndStart(source, resolve, s), sizes, 0);
            s'.completed == s.completed + [s'.target]
  {
    RunKeepsInvariant(source, resolve, invitedSize, events);
    if source.FolderSource? { CleanRunKeeps(source, resolve, invitedSize, events); }
    SettledPlaceFits(source, s.target);
    ResumedSessionCompletesIff(source, resolve, s, sizes);
  }

  // ---- A session from the start over an interrupted folder ----

  /** The session before, during and after the frames that are taken. */
  ghost predicate Resent(source: Source, s: Protocol, t: Protocol)
    requires source.FolderSource?
  {
    Invariant(source, t) && (Waits(s, t) || Resends(source, s, t) || (t.pending.None? && !StartsSession(t)))
  }

  ghost predicate Waits(s: Protocol, t: Protocol) {
    && StartsSession(t) && t.stream.value.offset == 0 && t.pending.None?
    && t.target == s.target && t.part == s.part
  }

  ghost predicate Resends(source: Source, s: Protocol, t: Protocol)
    requires source.FolderSource?
  {
    && Attached(source, t) && t.pending.value.expectedSize == source.Size()
    && AreRewritten(source.entries, OnDisk(source, t.target), PayloadSize(s.target), t.stream.value.offset)
  }

  lemma {:induction false} StartOver(entries: seq<FolderEntry>, counts: seq<nat>, size: nat)
    requires ArePrefix(entries, counts, size)
    ensures AreRewritten(entries, counts, size, 0)
  {}

  lemma {:induction false} ResentOffer(source: Source, resolve: Resolver, s: Protocol, t: Protocol, want: nat)
    requires source.WellFormed() && source.FolderSource? && want > 0
    requires Invariant(source, s) && Settled(source, s.target) && PathFound(s) && s.pending.None?
    requires Resent(source, s, t) && StartsSession(t)
    ensures Resent(source, s, OnDeliver(source, resolve, t, want))
  {
    var target' := OfferDelivered(source, resolve, t, want);
    StartCursorValid(source, 0);
    FolderFits(source, s.target);
    StartOver(source.entries, OnDisk(source, s.target), PayloadSize(s.target));
  }

  lemma {:induction false} ResentFrame(source: Source, resolve: Resolver, s: Protocol, t: Protocol, want: nat)
    requires source.WellFormed() && Understands(resolve, source) && source.FolderSource? && want > 0
    requires Resent(source, s, t) && Attached(source, t)
    ensures Resent(source, s, OnDeliver(source, resolve, t, want))
  {
    var c', frame := FrameSent(source, t.stream.value, want);
    if frame.Chunk? {
      var target' := AttachedGoesOn(source, resolve, t, want, c', frame);
      var i, from, to := CountsExtended(source.entries, t.target.tree, target'.tree, t.stream.value, c');
      ChunkRewrites(source.entries, OnDisk(source, t.target), PayloadSize(s.target), t.stream.value, c', i, from, to);
    } else {
      CompleteHandled(source, t, c', frame);
      CompleteKeepsInvariant(source, t, c', frame);
    }
  }

  lemma {:induction false} ResentStep(source: Source, resolve: Resolver, s: Protocol, t: Protocol, want: nat)
    requires source.WellFormed() && Understands(resolve, source) && source.FolderSource?
    requires Invariant(source, s) && Settled(source, s.target) && PathFound(s) && s.pending.None?
    requires Resent(source, s, t)
    ensures Resent(source, s, Step(source, resolve, t, Deliver(want)))
  {
    if t.stream.Some? && want > 0 {
      if StartsSession(t) {
        ResentOffer(source, resolve, s, t, want);
      } else if Attached(source, t) {
        ResentFrame(source, resolve, s, t, want);
      } else {
        DeliverKeepsInvariant(source, resolve, t, want);
        DetachedStep(source, resolve, t, want);
      }
    }
  }

  lemma {:induction false} ResentRun(source: Source, resolve: Resolver, s: Protocol, events: seq<Event>)
    requires source.WellFormed() && Understands(resolve, source) && source.FolderSource?
    requires Invariant(source, s) && Settled(source, s.target) && PathFound(s) && s.pending.None?
    requires forall k | 0 <= k < |events| :: events[k].Deliver?
    ensures Resent(source, s, Run(source, resolve, OnStart(source, s, 0), events))
  {
    if events == [] {
      StartHandled(source, s, 0);
    } else {
      var t := Run(source, resolve, OnStart(source, s, 0), events[..|events| - 1]);
      ResentRun(source, resolve, s, events[..|events| - 1]);
      ResentStep(source, resolve, s, t, events[|events| - 1].want);
    }
  }

  lemma {:induction false} SettledIff(source: Source, target: Target)
    requires source.WellFormed() && source.FolderSource? && PayloadInvariant(source, target)
    ensures Settled(source, target) <==> exists received: nat :: ArePrefix(source.entries, OnDisk(source, target), received)
  {
    if Settled(source, target) {
      assert ArePrefix(source.entries, OnDisk(source, target), TreeSize(TreeOf(target)));
    } else if received: nat :| ArePrefix(source.entries, OnDisk(source, target), received) {
      PrefixWithin(source.entries, OnDisk(source, target), received);
      ExactSize(source.entries, TreeOf(target), Min(received, source.Size()));
    }
  }

  lemma {:induction false} ResentIsSettledIff(source: Source, s: Protocol, t: Protocol, i: nat)
    requires source.WellFormed() && source.FolderSource? && Resent(source, s, t) && Attached(source, t)
    requires PayloadSize(s.target) <= source.Size() && i < |source.entries|
    requires Start(source.entries, i) < t.stream.value.offset <= Start(source.entries, i + 1)
    ensures Settled(source, t.target)
       <==> PayloadSize(s.target) <= Start(source.entries, i + 1) || t.stream.value.offset == Start(source.entries, i + 1)
  {
    SettledIff(source, t.target);
    RewriteIsPrefixIff(source.entries, OnDisk(source, t.target), PayloadSize(s.target), t.stream.value.offset, i);
  }

  /** The sender starts over, and these frames are delivered. */
  ghost function SentAgain(source: Source, resolve: Resolver, s: Protocol, deliveries: seq<Event>): Protocol {
    Run(source, resolve, Step(source, resolve, s, SenderSends), deliveries)
  }

  /** The sender starts over while an interrupted folder is on disk, and is cut in entry `i`: the folder is
      again exactly the beginning of the stream if and only if the entry had just been finished, or nothing
      beyond it had been on disk. */
  lemma {:induction false} SentAgainIsSettledIff(source: Source, resolve: Resolver, s: Protocol, deliveries: seq<Event>,
        t: Protocol, i: nat)
    requires source.WellFormed() && Understands(resolve, source) && source.FolderSource?
    requires Invariant(source, s) && Settled(source, s.target) && PathFound(s) && s.pending.None?
    requires forall k | 0 <= k < |deliveries| :: deliveries[k].Deliver?
    requires t == SentAgain(source, resolve, s, deliveries) && Attached(source, t)
    requires i < |source.entries| && Start(source.entries, i) < t.stream.value.offset <= Start(source.entries, i + 1)
    ensures Settled(source, Step(source, resolve, t, Cut).target)
       <==> PayloadSize(s.target) <= Start(source.entries, i + 1) || t.stream.value.offset == Start(source.entries, i + 1)
  {
    ResentRun(source, resolve, s, deliveries);
    FolderFits(source, s.target);
    ResentIsSettledIff(source, s, t, i);
  }
}
