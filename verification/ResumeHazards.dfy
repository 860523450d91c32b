/** Concrete runs of the resume protocol that show each of its conditions is needed. */
module ResumeHazards {
  import opened Prelude
  import opened TransferStates
  import opened TransferSource
  import opened TransferProducer
  import opened TransferReceiver
  import opened TransferProgress
  import opened ResumeProtocol
  import opened ResumeSessions

  lemma {:induction false} Then(source: Source, resolve: Resolver, invitedSize: Option<nat>, events: seq<Event>, s: Protocol,
        event: Event)
      returns (events': seq<Event>, s': Protocol)
    requires s == Run(source, resolve, Initial(invitedSize), events)
    ensures events' == events + [event] && s' == Step(source, resolve, s, event)
    ensures s' == Run(source, resolve, Initial(invitedSize), events')
  {
    events', s' := events + [event], Step(source, resolve, s, event);
    assert events'[..|events'| - 1] == events;
  }

  // ---- A file of two bytes, half received ----

  function NoPaths(text: string): Option<seq<string>> { None }

  const TWO_BYTES := FlatSource([1, 2])

  function Half(part: Part, pending: Option<PendingIncoming>, accepts: seq<nat>, stream: Option<Cursor>): Protocol {
    Protocol(part, pending, PlainFile([1]), accepts, stream, [])
  }

  lemma {:induction false} FirstByte(s: Protocol)
    requires s == Protocol(Part(Transferring, Some(2)), Some(PendingIncoming(2, 0, false)), PlainFile([]), [],
                           Some(Cursor(0, 0, 0, Some(0), true, false)), [])
    ensures Step(TWO_BYTES, NoPaths, s, Deliver(1))
         == Half(Part(Transferring, Some(2)), Some(PendingIncoming(2, 1, false)), [], Some(Cursor(1, 0, 0, Some(1), true, false)))
  {
    assert TWO_BYTES.content[0..1] == [1] && [] + [1] == [1];
    assert Next(TWO_BYTES, s.stream.value, 1) == (Cursor(1, 0, 0, Some(1), true, false), Emit(Chunk(0, None, [1])));
  }

  lemma {:induction false} FirstOffer() returns (events: seq<Event>)
    ensures events == [AcceptInvitation, StartSending(0), Deliver(1)]
    ensures Run(TWO_BYTES, NoPaths, Initial(Some(2)), events)
         == Protocol(Part(Transferring, Some(2)), Some(PendingIncoming(2, 0, false)), PlainFile([]), [],
                     Some(Cursor(0, 0, 0, Some(0), true, false)), [])
  {
    var s := Initial(Some(2));
    events := [];
    events, s := Then(TWO_BYTES, NoPaths, Some(2), events, s, AcceptInvitation);
    assert s == Protocol(Part(Transferring, Some(2)), Some(PendingIncoming(2, 0, false)), PlainFile([]), [0], None, []);
    events, s := Then(TWO_BYTES, NoPaths, Some(2), events, s, StartSending(0));
    assert s.accepts == [] && s.stream == Some(Cursor(0, 0, 0, Some(0), false, false));
    events, s := Then(TWO_BYTES, NoPaths, Some(2), events, s, Deliver(1));
  }

  lemma {:induction false} AcceptedHalf()
    ensures Step(TWO_BYTES, NoPaths, Half(Part(Interrupted, Some(2)), None, [], None), AcceptInvitation)
         == Half(Part(Transferring, Some(2)), Some(PendingIncoming(2, 1, false)), [1], None)
  {}

  lemma {:induction false} CutHalf(stream: Cursor)
    ensures stream.offerSent && !stream.completeSent ==>
              Step(TWO_BYTES, NoPaths, Half(Part(Transferring, Some(2)), Some(PendingIncoming(2, 1, false)), [], Some(stream)), Cut)
              == Half(Part(Interrupted, Some(2)), None, [], None)
  {}

  /** The first session delivers one byte and is cut, and the part is accepted again. */
  lemma {:induction false} AcceptedAgain() returns (events: seq<Event>)
    ensures events == [AcceptInvitation, StartSending(0), Deliver(1)] + [Deliver(1), Cut, AcceptInvitation]
    ensures Run(TWO_BYTES, NoPaths, Initial(Some(2)), events)
         == Half(Part(Transferring, Some(2)), Some(PendingIncoming(2, 1, false)), [1], None)
  {
    events := FirstOffer();
    var s := Run(TWO_BYTES, NoPaths, Initial(Some(2)), events);
    FirstByte(s);
    events, s := Then(TWO_BYTES, NoPaths, Some(2), events, s, Deliver(1));
    CutHalf(s.stream.value);
    events, s := Then(TWO_BYTES, NoPaths, Some(2), events, s, Cut);
    AcceptedHalf();
    events, s := Then(TWO_BYTES, NoPaths, Some(2), events, s, AcceptInvitation);
  }

  /** Before the new stream's offer arrives another transfer's stream closes. The offer then finds no pending
      entry, and the session fails. */
  lemma {:induction false} OtherStreamBreaksResume(sizes: nat -> nat) returns (events: seq<Event>, s: Protocol)
    ensures events == [AcceptInvitation, StartSending(0), Deliver(1)] + [Deliver(1), Cut, AcceptInvitation]
                      + [OtherStreamClosed, StartSending(0)]
    ensures s == Run(TWO_BYTES, NoPaths, Initial(Some(2)), events) && StartsSession(s) && StreamInvariant(TWO_BYTES, s)
    ensures Uncut(TWO_BYTES, NoPaths, s, sizes, 0).part.state.Failed?
  {
    events := AcceptedAgain();
    s := Half(Part(Transferring, Some(2)), Some(PendingIncoming(2, 1, false)), [1], None);
    events, s := Then(TWO_BYTES, NoPaths, Some(2), events, s, OtherStreamClosed);
    assert s == Half(Part(Interrupted, Some(2)), None, [1], None);
    events, s := Then(TWO_BYTES, NoPaths, Some(2), events, s, StartSending(0));
    assert s == Half(Part(Interrupted, Some(2)), None, [], Some(Cursor(1, 0, 0, Some(1), false, false)));
    UncutSessionCompletesIff(TWO_BYTES, NoPaths, Some(2), events, sizes);
  }

  /** Before the accept frame arrives the sender starts over on its own. The offer then finds a pending entry
      of one byte, and the session fails. */
  lemma {:induction false} SenderBreaksResume(sizes: nat -> nat) returns (events: seq<Event>, s: Protocol)
    ensures events == [AcceptInvitation, StartSending(0), Deliver(1)] + [Deliver(1), Cut, AcceptInvitation] + [SenderSends]
    ensures s == Run(TWO_BYTES, NoPaths, Initial(Some(2)), events) && StartsSession(s) && StreamInvariant(TWO_BYTES, s)
    ensures Uncut(TWO_BYTES, NoPaths, s, sizes, 0).part.state.Failed?
  {
    events := AcceptedAgain();
    s := Half(Part(Transferring, Some(2)), Some(PendingIncoming(2, 1, false)), [1], None);
    events, s := Then(TWO_BYTES, NoPaths, Some(2), events, s, SenderSends);
    assert s == Half(Part(Transferring, Some(2)), Some(PendingIncoming(2, 1, false)), [1], Some(Cursor(0, 0, 0, Some(0), false, false)));
    UncutSessionCompletesIff(TWO_BYTES, NoPaths, Some(2), events, sizes);
  }

  // ---- A folder of two files ----

  function OneName(text: string): Option<seq<string>> { Some([text]) }

  function TwoFiles(): Source {
    FolderSource([File(["a"], [1, 2]), File(["b"], [3])])
  }

  function TwoFilesTree(a: seq<Byte>, b: seq<Byte>): Tree {
    map[["a"] := FileNode(a), ["b"] := FileNode(b)]
  }

  lemma {:induction false} TwoFilesSize(a: seq<Byte>, b: seq<Byte>)
    ensures TreeSize(TwoFilesTree(a, b)) == |a| + |b|
    ensures TreeSize(map[["a"] := FileNode(a)]) == |a|
  {
    var none: map<seq<string>, seq<Byte>> := map[];
    assert Files(map[["a"] := FileNode(a)]) == none[["a"] := a];
    assert Files(TwoFilesTree(a, b)) == none[["a"] := a][["b"] := b];
    SumLengthsUpdate(none, ["a"], a);
    SumLengthsUpdate(none[["a"] := a], ["b"], b);
  }

  lemma {:induction false} TwoFilesStarts()
    ensures Start(TwoFiles().entries, 0) == 0 && Start(TwoFiles().entries, 1) == 2 && TwoFiles().Size() == 3
    ensures TwoFiles().WellFormed() && Understands(OneName, TwoFiles())
  {
    assert Start(TwoFiles().entries, 2) == Start(TwoFiles().entries, 1) + 1;
  }

  /** The sender's position once its offer is out and it has come to the beginning of entry `i`. */
  function At(offset: nat, i: nat): Cursor {
    Cursor(offset, i, 0, None, true, false)
  }

  lemma {:induction false} SendsA(want: nat, body: seq<Byte>)
    requires 0 < want <= 2 && body == [1, 2][..want]
    ensures Next(TwoFiles(), At(0, 0), want)
         == (Cursor(want, 0, want, Some(want), true, false), Emit(Chunk(0, Some(FolderTarget("a", 0, false)), body)))
  {
    assert TwoFiles().entries[0] == File(["a"], [1, 2]);
    assert [1, 2][0..want] == [1, 2][..want];
  }

  lemma {:induction false} SendsB(c: Cursor)
    requires c == At(2, 1) || c == Cursor(2, 0, 2, Some(2), true, false)
    ensures Next(TwoFiles(), c, 1)
         == (Cursor(3, 1, 1, Some(1), true, false), Emit(Chunk(2, Some(FolderTarget("b", 0, false)), [3])))
  {
    TwoFilesStarts();
    assert TwoFiles().entries[1] == File(["b"], [3]) && TwoFiles().entries[0].Size() == 2;
    assert [3][0..1] == [3];
    assert AtEntry(TwoFiles(), At(2, 1), 1).1.Some?;
    AdvanceFirst(TwoFiles(), c, 1);
    assert Advance(TwoFiles(), c) == At(2, 1);
  }

  lemma {:induction false} WriteTop(tree: Tree, name: string, body: seq<Byte>)
    requires [name] in tree ==> tree[[name]].FileNode?
    ensures WriteFileAt(tree, [name], 0, body) == (tree[[name] := FileNode(body)], true)
  {
    assert WithDirectories(tree, [name], 0) == tree;
  }

  /** The first chunk of a file is taken. */
  lemma {:induction false} TakesTop(s: Protocol, offset: nat, name: string, body: seq<Byte>)
    requires s.pending == Some(PendingIncoming(3, offset, true)) && offset + |body| <= 3
    requires s.target.FolderTree? && ([name] in s.target.tree ==> s.target.tree[[name]].FileNode?)
    ensures OnChunk(OneName, s, Chunk(offset, Some(FolderTarget(name, 0, false)), body))
         == s.(pending := Some(PendingIncoming(3, offset + |body|, true)),
               target := FolderTree(s.target.tree[[name] := FileNode(body)]))
  {
    WriteTop(s.target.tree, name, body);
  }

  function InFolder(part: Part, pending: Option<PendingIncoming>, tree: Tree, accepts: seq<nat>, stream: Option<Cursor>): Protocol {
    Protocol(part, pending, FolderTree(tree), accepts, stream, [])
  }

  lemma {:induction false} OfferTaken(s: Protocol)
    requires s.stream == Some(StartCursor(TwoFiles(), 0)) && s.target.FolderTree? && s.part.state.Transferring?
    requires s.pending.Some? ==> s.pending.value.folderTransfer && TreeSize(s.target.tree) == 0
    ensures Step(TwoFiles(), OneName, s, Deliver(1))
         == s.(stream := Some(At(0, 0)), pending := Some(PendingIncoming(3, 0, true)))
  {
    TwoFilesStarts();
  }

  lemma {:induction false} NothingOnDisk()
    ensures TreeSize(map[]) == 0
  {
    assert Files(map[]) == map[];
  }

  /** The folder is invited with this size, accepted, and its offer arrives. */
  lemma {:induction false} FolderOffer(invitedSize: nat) returns (events: seq<Event>)
    ensures events == [AcceptInvitation, StartSending(0), Deliver(1)]
    ensures Run(TwoFiles(), OneName, Initial(Some(invitedSize)), events)
         == InFolder(Part(Transferring, Some(invitedSize)), Some(PendingIncoming(3, 0, true)), map[], [], Some(At(0, 0)))
  {
    var s := Initial(Some(invitedSize));
    events := [];
    events, s := Then(TwoFiles(), OneName, Some(invitedSize), events, s, AcceptInvitation);
    assert s == InFolder(Part(Transferring, Some(invitedSize)), Some(PendingIncoming(invitedSize, 0, true)), map[], [0], None);
    events, s := Then(TwoFiles(), OneName, Some(invitedSize), events, s, StartSending(0));
    assert s.accepts == [] && s.stream == Some(StartCursor(TwoFiles(), 0));
    NothingOnDisk();
    OfferTaken(s);
    events, s := Then(TwoFiles(), OneName, Some(invitedSize), events, s, Deliver(1));
  }

  lemma {:induction false} DeliversA(s: Protocol, want: nat, body: seq<Byte>)
    requires 0 < want <= 2 && body == [1, 2][..want] && s.stream == Some(At(0, 0))
    requires s.pending == Some(PendingIncoming(3, 0, true))
    requires s.target.FolderTree? && (["a"] in s.target.tree ==> s.target.tree[["a"]].FileNode?)
    ensures Step(TwoFiles(), OneName, s, Deliver(want))
         == s.(stream := Some(Cursor(want, 0, want, Some(want), true, false)), pending := Some(PendingIncoming(3, want, true)),
               target := FolderTree(s.target.tree[["a"] := FileNode(body)]))
  {
    SendsA(want, body);
    TakesTop(s.(stream := Some(Cursor(want, 0, want, Some(want), true, false))), 0, "a", body);
  }

  lemma {:induction false} DeliversB(s: Protocol)
    requires s.stream == Some(Cursor(2, 0, 2, Some(2), true, false)) && s.pending == Some(PendingIncoming(3, 2, true))
    requires s.target.FolderTree? && (["b"] in s.target.tree ==> s.target.tree[["b"]].FileNode?)
    ensures Step(TwoFiles(), OneName, s, Deliver(1))
         == s.(stream := Some(Cursor(3, 1, 1, Some(1), true, false)), pending := Some(PendingIncoming(3, 3, true)),
               target := FolderTree(s.target.tree[["b"] := FileNode([3])]))
  {
    SendsB(s.stream.value);
    TakesTop(s.(stream := Some(Cursor(3, 1, 1, Some(1), true, false))), 2, "b", [3]);
  }

  lemma {:induction false} ClosesFolder(s: Protocol)
    requires s.stream.Some? && MidStream(s.stream.value) && s.part.state.Transferring?
    requires s.pending.Some? && s.pending.value.expectedSize == 3
    ensures Step(TwoFiles(), OneName, s, Cut) == s.(part := Part(Interrupted, Some(3)), pending := None, stream := None)
  {}

  // ---- An invitation without a size ----

  lemma {:induction false} RestartsReceiver(s: Protocol)
    requires s.part == Part(Transferring, Some(0))
    ensures Step(TwoFiles(), OneName, Step(TwoFiles(), OneName, s, ReceiverRestarted), HistoryLoaded)
         == s.(part := Part(Interrupted, Some(0)), pending := None, stream := None)
  {}

  lemma {:induction false} ReceiverStopped() returns (events: seq<Event>)
    ensures events == [AcceptInvitation, StartSending(0), Deliver(1)] + [Deliver(1), ReceiverRestarted, HistoryLoaded]
    ensures Run(TwoFiles(), OneName, Initial(Some(0)), events)
         == InFolder(Part(Interrupted, Some(0)), None, map[["a"] := FileNode([1])], [], None)
  {
    events := FolderOffer(0);
    var s := InFolder(Part(Transferring, Some(0)), Some(PendingIncoming(3, 0, true)), map[], [], Some(At(0, 0)));
    DeliversA(s, 1, [1]);
    RestartsReceiver(Step(TwoFiles(), OneName, s, Deliver(1)));
    events, s := Then(TwoFiles(), OneName, Some(0), events, s, Deliver(1));
    events, s := Then(TwoFiles(), OneName, Some(0), events, s, ReceiverRestarted);
    events, s := Then(TwoFiles(), OneName, Some(0), events, s, HistoryLoaded);
  }

  lemma {:induction false} AcceptedSessionFails(s: Protocol, sizes: nat -> nat)
    requires Invariant(TwoFiles(), s) && s.part == Part(Interrupted, Some(0)) && s.stream.None?
    requires PayloadSize(s.target) > 0 && s.completed == []
    ensures Invariant(TwoFiles(), AcceptAndStart(TwoFiles(), OneName, s))
    ensures Uncut(TwoFiles(), OneName, AcceptAndStart(TwoFiles(), OneName, s), sizes, 0).completed == []
  {
    TwoFilesStarts();
    LastAccept(TwoFiles(), OneName, s);
    AcceptHandled(TwoFiles(), s);
    AcceptedSessionCompletesIff(TwoFiles(), OneName, s, sizes);
    SessionCompletesIff(TwoFiles(), OneName, AcceptAndStart(TwoFiles(), OneName, s), sizes);
  }

  /** A folder is invited before its size is known, one byte arrives, and the receiver is restarted. It then
      accepts from offset 0, finds one byte when the offer arrives, and the session fails. */
  lemma {:induction false} ZeroSizeBreaksResume(sizes: nat -> nat) returns (events: seq<Event>, s: Protocol)
    ensures events == [AcceptInvitation, StartSending(0), Deliver(1)] + [Deliver(1), ReceiverRestarted, HistoryLoaded]
    ensures s == Run(TwoFiles(), OneName, Initial(Some(0)), events) && Invariant(TwoFiles(), AcceptAndStart(TwoFiles(), OneName, s))
    ensures Uncut(TwoFiles(), OneName, AcceptAndStart(TwoFiles(), OneName, s), sizes, 0).completed == []
  {
    events := ReceiverStopped();
    s := InFolder(Part(Interrupted, Some(0)), None, map[["a"] := FileNode([1])], [], None);
    TwoFilesSize([1], []);
    TwoFilesStarts();
    RunKeepsInvariant(TwoFiles(), OneName, Some(0), events);
    AcceptedSessionFails(s, sizes);
  }

  // ---- A folder sent again from its start ----

  /** The whole folder arrives, but not its complete frame. */
  lemma {:induction false} AllButComplete() returns (events: seq<Event>)
    ensures events == [AcceptInvitation, StartSending(0), Deliver(1)] + [Deliver(2), Deliver(1), Cut]
    ensures Run(TwoFiles(), OneName, Initial(Some(3)), events)
         == InFolder(Part(Interrupted, Some(3)), None, TwoFilesTree([1, 2], [3]), [], None)
  {
    events := FolderOffer(3);
    var s := InFolder(Part(Transferring, Some(3)), Some(PendingIncoming(3, 0, true)), map[], [], Some(At(0, 0)));
    DeliversA(s, 2, [1, 2]);
    events, s := Then(TwoFiles(), OneName, Some(3), events, s, Deliver(2));
    DeliversB(s);
    events, s := Then(TwoFiles(), OneName, Some(3), events, s, Deliver(1));
    ClosesFolder(s);
    events, s := Then(TwoFiles(), OneName, Some(3), events, s, Cut);
    assert s.target.tree == TwoFilesTree([1, 2], [3]);
  }

  lemma {:induction false} OfferOver(s: Protocol)
    requires s.stream == Some(StartCursor(TwoFiles(), 0)) && s.target.FolderTree? && s.part.state.Interrupted? && s.pending.None?
    ensures Step(TwoFiles(), OneName, s, Deliver(1))
         == s.(stream := Some(At(0, 0)), pending := Some(PendingIncoming(3, 0, true)), part := s.part.(state := Transferring))
  {
    TwoFilesStarts();
  }

  /** The sender starts over and is cut after one byte. */
  lemma {:induction false} SentAgainByOne() returns (events: seq<Event>)
    ensures events == [AcceptInvitation, StartSending(0), Deliver(1)] + [Deliver(2), Deliver(1), Cut]
                      + [SenderSends, Deliver(1), Deliver(1), Cut]
    ensures Run(TwoFiles(), OneName, Initial(Some(3)), events)
         == InFolder(Part(Interrupted, Some(3)), None, TwoFilesTree([1], [3]), [], None)
  {
    events := AllButComplete();
    var s := InFolder(Part(Interrupted, Some(3)), None, TwoFilesTree([1, 2], [3]), [], None);
    events, s := Then(TwoFiles(), OneName, Some(3), events, s, SenderSends);
    OfferOver(s);
    events, s := Then(TwoFiles(), OneName, Some(3), events, s, Deliver(1));
    DeliversA(s, 1, [1]);
    events, s := Then(TwoFiles(), OneName, Some(3), events, s, Deliver(1));
    ClosesFolder(s);
    events, s := Then(TwoFiles(), OneName, Some(3), events, s, Cut);
    assert s.target.tree == TwoFilesTree([1], [3]);
  }

  lemma {:induction false} StartsAtB()
    ensures StartCursor(TwoFiles(), 2) == Cursor(2, 1, 0, None, false, false)
  {
    TwoFilesStarts();
    SeekPositionUnique(TwoFiles().entries, 2, 1, 0, StartCursor(TwoFiles(), 2).index, StartCursor(TwoFiles(), 2).fileOffset);
  }

  lemma {:induction false} AcceptsTwo()
    requires Invariant(TwoFiles(), InFolder(Part(Interrupted, Some(3)), None, TwoFilesTree([1], [3]), [], None))
    ensures var s := AcceptAndStart(TwoFiles(), OneName, InFolder(Part(Interrupted, Some(3)), None, TwoFilesTree([1], [3]), [], None));
            && Invariant(TwoFiles(), s) && StartsSession(s) && s.completed == []
            && s.pending.Some? && TreeOf(s.target) == TwoFilesTree([1], [3]) && s.stream.value == Cursor(2, 1, 0, None, false, false)
  {
    var s := InFolder(Part(Interrupted, Some(3)), None, TwoFilesTree([1], [3]), [], None);
    TwoFilesStarts();
    TwoFilesSize([1], [3]);
    LastAccept(TwoFiles(), OneName, s);
    AcceptHandled(TwoFiles(), s);
    StartsAtB();
  }

  /** A folder completes with a file cut short: it was sent again from its start up to the middle of the first
      file, and the next session starts at the size that is then on disk, behind the gap. */
  lemma {:induction false} StaleRestartCorrupts(sizes: nat -> nat) returns (events: seq<Event>, s: Protocol)
    ensures events == [AcceptInvitation, StartSending(0), Deliver(1)] + [Deliver(2), Deliver(1), Cut]
                      + [SenderSends, Deliver(1), Deliver(1), Cut]
    ensures s == Run(TwoFiles(), OneName, Initial(Some(3)), events) && Invariant(TwoFiles(), AcceptAndStart(TwoFiles(), OneName, s))
    ensures var s' := Uncut(TwoFiles(), OneName, AcceptAndStart(TwoFiles(), OneName, s), sizes, 0);
            s'.completed == [s'.target] && !HoldsWhole(TwoFiles(), s'.target)
  {
    events := SentAgainByOne();
    s := InFolder(Part(Interrupted, Some(3)), None, TwoFilesTree([1], [3]), [], None);
    TwoFilesStarts();
    RunKeepsInvariant(TwoFiles(), OneName, Some(3), events);
    AcceptsTwo();
    BehindTheGap(AcceptAndStart(TwoFiles(), OneName, s), sizes);
  }

  lemma {:induction false} BehindTheGap(s: Protocol, sizes: nat -> nat)
    requires Invariant(TwoFiles(), s) && StartsSession(s) && s.completed == [] && s.pending.Some?
    requires TreeOf(s.target) == TwoFilesTree([1], [3]) && s.stream.value == Cursor(2, 1, 0, None, false, false)
    ensures var s' := Uncut(TwoFiles(), OneName, s, sizes, 0);
            s'.completed == [s'.target] && !HoldsWhole(TwoFiles(), s'.target)
  {
    TwoFilesStarts();
    TwoFilesSize([1], [3]);
    FolderFits(TwoFiles(), s.target);
    assert FoundOnDisk(TwoFiles(), s)[0] == 1 && TwoFiles().entries[0].Size() == 2;
    SessionCompletesIff(TwoFiles(), OneName, s, sizes);
  }
}
