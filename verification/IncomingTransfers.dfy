/** All incoming transfers of one device: the map of pending entries, the payloads on disk and the
    queues of updates that report what became of a transfer (`handleIncomingPeerFrame` with its catch
    handler, `failIncomingTransferFromFrame` and `interruptPendingIncomingTransfers` of
    src/main/app_runtime.cpp). */
module IncomingTransfers {
  import opened Prelude
  import opened TransferStates
  import opened TransferProducer
  import opened TransferReceiver

  type TransferId = string
  type PayloadPath = string

  datatype Entry = Entry(path: PayloadPath, incoming: PendingIncoming)

  /** An update of a whole part, and one of its state alone; each has its own queue. */
  datatype PartUpdate = PartUpdate(id: TransferId, state: TransferState, fileSize: nat, localPath: PayloadPath)
  datatype StateUpdate = StateUpdate(id: TransferId, state: TransferState)

  datatype Ledger = Ledger(
    pending: map<TransferId, Entry>, disk: map<PayloadPath, Target>,
    updates: seq<PartUpdate>, stateUpdates: seq<StateUpdate>)

  /** `Malformed` is a frame whose header does not parse. */
  datatype NetworkFrame =
    | Transfer(id: TransferId, frame: TransferFrame)
    | Cancel(id: TransferId, reason: string)
    | Malformed

  /** The part an offer may resume, as found in the message history. */
  datatype InterruptedPart = InterruptedPart(path: Option<PayloadPath>, folder: bool)

  /** What the surroundings decide in one step: whether the application's paths and the payload can
      be opened, the interrupted part found for an offer, and an unused path. */
  datatype Surroundings = Surroundings(
    pathsOk: bool, payloadOk: bool, interrupted: Option<InterruptedPart>, freshPath: PayloadPath)

  /** A resolver of chunk paths for every target root. */
  type Resolvers = PayloadPath -> Resolver

  function At(disk: map<PayloadPath, Target>, path: PayloadPath): Target {
    if path in disk then disk[path] else Missing
  }

  function Verdict(id: TransferId, entry: Entry, state: TransferState): PartUpdate {
    PartUpdate(id, state, entry.incoming.expectedSize, entry.path)
  }

  // ---- The frame handler; the flag tells whether it returned normally ----

  function OfferPath(s: Ledger, id: TransferId, around: Surroundings): PayloadPath {
    if id in s.pending then s.pending[id].path
    else if around.interrupted.Some? && around.interrupted.value.path.Some? then around.interrupted.value.path.value
    else around.freshPath
  }

  function OfferIsFolder(s: Ledger, id: TransferId, offer: TransferFrame, around: Surroundings): bool
    requires offer.Offer?
  {
    || offer.folderTransfer
    || (if id in s.pending then s.pending[id].incoming.folderTransfer
        else around.interrupted.Some? && around.interrupted.value.path.Some? && around.interrupted.value.folder)
  }

  ghost function OnOffer(s: Ledger, id: TransferId, offer: TransferFrame, around: Surroundings): (Ledger, bool)
    requires offer.Offer?
  {
    if !around.pathsOk || !around.payloadOk then (s, false)
    else
      var path := OfferPath(s, id, around);
      var resume := id in s.pending || (offer.resumeRequest && around.interrupted.Some?);
      var after := ReceiveOffer(At(s.disk, path), OfferIsFolder(s, id, offer, around), resume, offer.fileSize);
      var s' := s.(disk := s.disk[path := after.target]);
      if after.pending.None? then (s', false)
      else (s'.(pending := s.pending[id := Entry(path, after.pending.value)],
                stateUpdates := s.stateUpdates + [StateUpdate(id, Transferring)]), true)
  }

  function OnChunk(resolvers: Resolvers, s: Ledger, id: TransferId, chunk: TransferFrame,
        around: Surroundings): (Ledger, bool)
    requires chunk.Chunk?
  {
    if id !in s.pending || !around.payloadOk then (s, false)
    else
      var Entry(path, incoming) := s.pending[id];
      var after := ReceiveChunk(resolvers(path), At(s.disk, path), incoming, chunk);
      var s' := s.(disk := s.disk[path := after.target]);
      if after.pending.None? then (s', false)
      else (s'.(pending := s.pending[id := Entry(path, after.pending.value)]), true)
  }

  function OnComplete(s: Ledger, id: TransferId, completeSize: nat, around: Surroundings): (Ledger, bool) {
    if id !in s.pending || !around.pathsOk || !AcceptsComplete(s.pending[id].incoming, completeSize) then (s, false)
    else (s.(updates := s.updates + [Verdict(id, s.pending[id], Completed)], pending := s.pending - {id}), true)
  }

  function CancelState(reason: string): TransferState {
    if reason == "transfer_failed" then Failed else Cancelled
  }

  /** The entry is erased before the application's paths are asked for. */
  function OnCancel(s: Ledger, id: TransferId, reason: string, around: Surroundings): (Ledger, bool) {
    if id !in s.pending then (s.(stateUpdates := s.stateUpdates + [StateUpdate(id, CancelState(reason))]), true)
    else
      var s' := s.(pending := s.pending - {id});
      if !around.pathsOk then (s', false)
      else (s'.(updates := s.updates + [Verdict(id, s.pending[id], CancelState(reason))]), true)
  }

  ghost function Handle(resolvers: Resolvers, s: Ledger, frame: NetworkFrame, around: Surroundings): (Ledger, bool) {
    match frame
    case Malformed => (s, false)
    case Cancel(id, reason) => OnCancel(s, id, reason, around)
    case Transfer(id, Offer(size, folder, resumeRequest)) => OnOffer(s, id, Offer(size, folder, resumeRequest), around)
    case Transfer(id, Chunk(offset, target, body)) => OnChunk(resolvers, s, id, Chunk(offset, target, body), around)
    case Transfer(id, Complete(size)) => OnComplete(s, id, size, around)
  }

  /** The catch handler: offers, chunks and complete frames fail their entry; a failed offer without
      an entry is reported on the other queue. */
  function FailFromFrame(s: Ledger, frame: NetworkFrame, around: Surroundings): Ledger {
    if !frame.Transfer? then s
    else if frame.id in s.pending then
      var s' := s.(pending := s.pending - {frame.id});
      if !around.pathsOk then s'
      else s'.(updates := s.updates + [Verdict(frame.id, s.pending[frame.id], Failed)])
    else if frame.frame.Offer? then s.(stateUpdates := s.stateUpdates + [StateUpdate(frame.id, Failed)])
    else s
  }

  ghost function OnFrame(resolvers: Resolvers, s: Ledger, frame: NetworkFrame, around: Surroundings): Ledger {
    var (s', ok) := Handle(resolvers, s, frame, around);
    if ok then s' else FailFromFrame(s', frame, around)
  }

  // ---- Closed streams and the user's own steps ----

  ghost predicate IsOrderOf(order: seq<TransferId>, ids: set<TransferId>) {
    && (forall id :: id in order <==> id in ids)
    && (forall i, j :: 0 <= i < j < |order| ==> order[i] != order[j])
  }

  function Interruptions(pending: map<TransferId, Entry>, order: seq<TransferId>): seq<PartUpdate>
    requires forall id :: id in order ==> id in pending
  {
    if order == [] then []
    else
      Interruptions(pending, order[..|order| - 1])
      + [Verdict(order[|order| - 1], pending[order[|order| - 1]], Interrupted)]
  }

  function OnStreamClosed(s: Ledger, order: seq<TransferId>): Ledger
    requires forall id :: id in order ==> id in s.pending
  {
    s.(updates := s.updates + Interruptions(s.pending, order), pending := map[])
  }

  /** The user accepts an invitation; `path` is where the payload is to go. */
  ghost function OnAccept(s: Ledger, id: TransferId, path: PayloadPath, folder: bool, interrupted: bool,
                          expectedSize: nat, around: Surroundings): Ledger
  {
    if !around.pathsOk || !around.payloadOk then s
    else
      var after := Accept(At(s.disk, path), folder, interrupted, expectedSize);
      var s' := s.(disk := s.disk[path := after.target]);
      if after.pending.None? then s' else s'.(pending := s.pending[id := Entry(path, after.pending.value)])
  }

  // ---- Runs ----

  /** `order` is the order in which a closed stream's loop visits the hash map. */
  datatype Event =
    | FrameArrived(frame: NetworkFrame, around: Surroundings)
    | StreamClosed(order: seq<TransferId>, pathsOk: bool)
    | InvitationAccepted(id: TransferId, path: PayloadPath, folder: bool, interrupted: bool, expectedSize: nat, around: Surroundings)
    | Withdrawn(id: TransferId)

  ghost predicate Enabled(s: Ledger, event: Event) {
    event.StreamClosed? ==> IsOrderOf(event.order, s.pending.Keys)
  }

  ghost function Step(resolvers: Resolvers, s: Ledger, event: Event): Ledger
    requires Enabled(s, event)
  {
    match event
    case FrameArrived(frame, around) => OnFrame(resolvers, s, frame, around)
    case StreamClosed(order, pathsOk) => if pathsOk then OnStreamClosed(s, order) else s
    case InvitationAccepted(id, path, folder, interrupted, size, around) =>
      OnAccept(s, id, path, folder, interrupted, size, around)
    case Withdrawn(id) => s.(pending := s.pending - {id})
  }

  /** The states of a run, one after each event. */
  ghost predicate IsRun(resolvers: Resolvers, states: seq<Ledger>, events: seq<Event>) {
    && |states| == |events| + 1
    && states[0].pending == map[] && states[0].updates == []
    && forall k | 0 <= k < |events| :: IsStep(resolvers, states[k], events[k], states[k + 1])
  }

  ghost predicate IsStep(resolvers: Resolvers, s: Ledger, event: Event, s': Ledger) {
    Enabled(s, event) && s' == Step(resolvers, s, event)
  }

  // ---- The ledger law ----

  function Verdicts(updates: seq<PartUpdate>, id: TransferId): nat {
    if updates == [] then 0
    else Verdicts(updates[..|updates| - 1], id) + if updates[|updates| - 1].id == id then 1 else 0
  }

  /** The chunk case throws: the payload cannot be written, the offset is not the recorded size, the write is
      refused, or the body exceeds the expected size. */
  predicate ChunkThrows(resolvers: Resolvers, s: Ledger, id: TransferId, chunk: TransferFrame, around: Surroundings)
    requires chunk.Chunk? && id in s.pending
  {
    var Entry(path, incoming) := s.pending[id];
    || !around.payloadOk
    || chunk.offset != incoming.receivedSize
    || !WriteChunk(resolvers(path), At(s.disk, path), incoming, chunk).1
    || chunk.offset + |chunk.body| > incoming.expectedSize
  }

  /** The steps that make an entry vanish without any update: the application's paths cannot be had
      just when the entry is to be cancelled or failed. */
  ghost predicate VanishesSilently(resolvers: Resolvers, s: Ledger, event: Event, id: TransferId) {
    && event.FrameArrived? && !event.around.pathsOk && id in s.pending
    && (match event.frame
        case Malformed => false
        case Cancel(cancelled, _) => cancelled == id
        case Transfer(named, frame) =>
          && named == id
          && (frame.Chunk? ==> ChunkThrows(resolvers, s, id, frame, event.around)))
  }

  predicate Withdraws(event: Event, id: TransferId) {
    event.Withdrawn? && event.id == id
  }

  /** Every verdict names one of the four ways a transfer can end. */
  predicate IsVerdict(update: PartUpdate) {
    update.state.Completed? || update.state.Failed? || update.state.Cancelled? || update.state.Interrupted?
  }

  lemma {:induction false} VerdictsOfConcat(a: seq<PartUpdate>, b: seq<PartUpdate>, id: TransferId)
    ensures Verdicts(a + b, id) == Verdicts(a, id) + Verdicts(b, id)
  {
    if b == [] {
      assert a + b == a;
    } else {
      VerdictsOfConcat(a, b[..|b| - 1], id);
      assert (a + b)[..|a + b| - 1] == a + b[..|b| - 1];
    }
  }

  lemma {:induction false} VerdictsOfOne(a: seq<PartUpdate>, update: PartUpdate, id: TransferId)
    ensures Verdicts(a + [update], id) == Verdicts(a, id) + if update.id == id then 1 else 0
  {
    assert (a + [update])[..|a|] == a;
  }

  /** A loop over the pending entries in any order gives each of them exactly one update. */
  lemma {:induction false} InterruptionsNameEachOnce(pending: map<TransferId, Entry>, order: seq<TransferId>,
        id: TransferId)
    requires forall other :: other in order ==> other in pending
    requires forall i, j :: 0 <= i < j < |order| ==> order[i] != order[j]
    ensures Verdicts(Interruptions(pending, order), id) == if id in order then 1 else 0
    ensures forall k | 0 <= k < |Interruptions(pending, order)| :: Interruptions(pending, order)[k].state == Interrupted
  {
    if order != [] {
      var front, last := order[..|order| - 1], order[|order| - 1];
      InterruptionsNameEachOnce(pending, front, id);
      VerdictsOfOne(Interruptions(pending, front), Verdict(last, pending[last], Interrupted), id);
      assert order == front + [last];
      assert last !in front;
    }
  }

  /** The law between two states: the updates grow by verdicts only, and `id` gets one exactly if its
      entry leaves without an excuse. */
  ghost predicate Accounts(s: Ledger, s': Ledger, id: TransferId, excused: bool) {
    && s.updates <= s'.updates
    && (forall k | |s.updates| <= k < |s'.updates| :: IsVerdict(s'.updates[k]))
    && Verdicts(s'.updates, id) == Verdicts(s.updates, id)
       + if id in s.pending && id !in s'.pending && !excused then 1 else 0
  }

  lemma {:induction false} OneVerdictAccounts(s: Ledger, s': Ledger, left: TransferId, state: TransferState,
        id: TransferId)
    requires left in s.pending && s'.pending == s.pending - {left}
    requires s'.updates == s.updates + [Verdict(left, s.pending[left], state)]
    requires state.Completed? || state.Failed? || state.Cancelled?
    ensures Accounts(s, s', id, false)
  {
    VerdictsOfOne(s.updates, Verdict(left, s.pending[left], state), id);
  }

  /** A handler that throws on an offer, a chunk or a complete frame has left the entries alone; one
      that returns has removed an entry only for a complete frame. */
  lemma {:induction false} HandlerKeepsEntries(resolvers: Resolvers, s: Ledger, frame: NetworkFrame,
        around: Surroundings)
    requires frame.Transfer?
    ensures var (s', ok) := Handle(resolvers, s, frame, around);
      && (ok && !frame.frame.Complete? ==> s'.updates == s.updates && s'.pending.Keys == s.pending.Keys + {frame.id})
      && (!ok ==> s'.updates == s.updates && s'.pending == s.pending)
      && (ok && frame.frame.Complete? ==>
            frame.id in s.pending && s' == s.(updates := s.updates + [Verdict(frame.id, s.pending[frame.id], Completed)],
                                              pending := s.pending - {frame.id}))
  {
  }

  lemma {:induction false} FrameAccounts(resolvers: Resolvers, s: Ledger, frame: NetworkFrame, around: Surroundings,
        id: TransferId)
    ensures var s' := OnFrame(resolvers, s, frame, around);
      && var silent := VanishesSilently(resolvers, s, FrameArrived(frame, around), id);
      && Accounts(s, s', id, silent)
      && (silent ==> id !in s'.pending)
  {
    match frame
    case Malformed =>
    case Cancel(left, reason) =>
      if left in s.pending && around.pathsOk {
        OneVerdictAccounts(s, OnFrame(resolvers, s, frame, around), left, CancelState(reason), id);
      }
    case Transfer(left, inner) =>
      HandlerKeepsEntries(resolvers, s, frame, around);
      var (s', ok) := Handle(resolvers, s, frame, around);
      if ok {
        if inner.Complete? { OneVerdictAccounts(s, s', left, Completed, id); }
      } else if left in s.pending && around.pathsOk {
        OneVerdictAccounts(s', FailFromFrame(s', frame, around), left, Failed, id);
      }
  }

  lemma {:induction false} ClosingAccounts(s: Ledger, order: seq<TransferId>, id: TransferId)
    requires IsOrderOf(order, s.pending.Keys)
    ensures Accounts(s, OnStreamClosed(s, order), id, false)
  {
    InterruptionsNameEachOnce(s.pending, order, id);
    VerdictsOfConcat(s.updates, Interruptions(s.pending, order), id);
  }

  /** One step: a transfer gets a new update exactly if its entry leaves, is not withdrawn by the user
      and does not vanish silently. */
  lemma {:induction false} EntryLeavesWithOneVerdict(resolvers: Resolvers, s: Ledger, event: Event, id: TransferId)
    requires Enabled(s, event)
    ensures Accounts(s, Step(resolvers, s, event), id, Withdraws(event, id) || VanishesSilently(resolvers, s, event, id))
    ensures VanishesSilently(resolvers, s, event, id) ==> id !in Step(resolvers, s, event).pending
  {
    match event
    case StreamClosed(order, pathsOk) => if pathsOk { ClosingAccounts(s, order, id); }
    case FrameArrived(frame, around) => FrameAccounts(resolvers, s, frame, around, id);
    case InvitationAccepted(_, _, _, _, _, _) =>
    case Withdrawn(_) =>
  }

  ghost function Entered(states: seq<Ledger>, id: TransferId, n: nat): nat
    requires n < |states|
  {
    if n == 0 then 0
    else Entered(states, id, n - 1) + if id !in states[n - 1].pending && id in states[n].pending then 1 else 0
  }

  ghost function Excused(resolvers: Resolvers, states: seq<Ledger>, events: seq<Event>, id: TransferId, n: nat): nat
    requires n < |states| && n <= |events|
  {
    if n == 0 then 0
    else
      Excused(resolvers, states, events, id, n - 1)
      + if id in states[n - 1].pending
           && (Withdraws(events[n - 1], id) || VanishesSilently(resolvers, states[n - 1], events[n - 1], id)) then 1 else 0
  }

  /** Over a whole run every entry ever made is still pending, or has had its one verdict, or was
      withdrawn by the user, or vanished silently. */
  lemma {:induction false} LedgerBalances(resolvers: Resolvers, states: seq<Ledger>, events: seq<Event>,
        id: TransferId, n: nat)
    requires IsRun(resolvers, states, events) && n <= |events|
    ensures Entered(states, id, n)
         == Verdicts(states[n].updates, id) + Excused(resolvers, states, events, id, n)
            + (if id in states[n].pending then 1 else 0)
    ensures forall update <- states[n].updates :: IsVerdict(update)
  {
    if n > 0 {
      LedgerBalances(resolvers, states, events, id, n - 1);
      assert IsStep(resolvers, states[n - 1], events[n - 1], states[n]);
      EntryLeavesWithOneVerdict(resolvers, states[n - 1], events[n - 1], id);
    }
  }

  /** While the application's paths can be had, an entry leaves exactly when its one verdict is queued. */
  lemma {:induction false} NoneVanishesNoneTwice(resolvers: Resolvers, states: seq<Ledger>, events: seq<Event>,
        id: TransferId, n: nat)
    requires IsRun(resolvers, states, events) && n <= |events|
    requires forall event <- events :: !Withdraws(event, id) && (event.FrameArrived? ==> event.around.pathsOk)
    ensures Entered(states, id, n) == Verdicts(states[n].updates, id) + if id in states[n].pending then 1 else 0
    ensures n > 0 ==>
      (id in states[n - 1].pending && id !in states[n].pending
       <==> Verdicts(states[n].updates, id) == Verdicts(states[n - 1].updates, id) + 1)
  {
    LedgerBalances(resolvers, states, events, id, n);
    NothingExcused(resolvers, states, events, id, n);
    if n > 0 {
      assert IsStep(resolvers, states[n - 1], events[n - 1], states[n]);
      EntryLeavesWithOneVerdict(resolvers, states[n - 1], events[n - 1], id);
    }
  }

  lemma {:induction false} NothingExcused(resolvers: Resolvers, states: seq<Ledger>, events: seq<Event>,
        id: TransferId, n: nat)
    requires n < |states| && n <= |events|
    requires forall event <- events :: !Withdraws(event, id) && (event.FrameArrived? ==> event.around.pathsOk)
    ensures Excused(resolvers, states, events, id, n) == 0
  {
    if n > 0 {
      NothingExcused(resolvers, states, events, id, n - 1);
      assert events[n - 1] in events;
    }
  }

  // ---- Plain files ----

  function PayloadLength(target: Target): nat {
    if target.PlainFile? then |target.content| else 0
  }

  ghost predicate EntryInvariant(s: Ledger, id: TransferId)
    requires id in s.pending
  {
    var Entry(path, incoming) := s.pending[id];
    !incoming.folderTransfer ==> incoming.receivedSize == PayloadLength(At(s.disk, path)) <= incoming.expectedSize
  }

  ghost predicate FlatInvariant(s: Ledger) {
    && (forall id :: id in s.pending ==> EntryInvariant(s, id))
    && (forall i, j :: i in s.pending && j in s.pending && i != j ==> s.pending[i].path != s.pending[j].path)
  }

  /** The step puts no payload where another pending transfer has its own. */
  ghost predicate ChoosesFreePath(s: Ledger, event: Event) {
    match event
    case InvitationAccepted(id, path, _, _, _, _) => PathIsFree(s, id, path)
    case FrameArrived(Transfer(id, Offer(_, _, _)), around) => PathIsFree(s, id, OfferPath(s, id, around))
    case _ => true
  }

  predicate PathIsFree(s: Ledger, id: TransferId, path: PayloadPath) {
    forall other :: other in s.pending && other != id ==> s.pending[other].path != path
  }

  /** Writing one payload and its entry leaves the other entries alone. */
  lemma {:induction false} WritingOnePayload(s: Ledger, s': Ledger, id: TransferId, path: PayloadPath)
    requires FlatInvariant(s) && PathIsFree(s, id, path)
    requires forall other :: other != path ==> At(s'.disk, other) == At(s.disk, other)
    requires forall other :: other in s'.pending && other != id ==> other in s.pending && s'.pending[other] == s.pending[other]
    requires id in s'.pending ==> s'.pending[id].path == path && EntryInvariant(s', id)
    ensures FlatInvariant(s')
  {
    forall other | other in s'.pending ensures EntryInvariant(s', other) {
      if other != id { assert EntryInvariant(s, other); }
    }
  }

  lemma {:induction false} FewerEntries(s: Ledger, s': Ledger)
    requires FlatInvariant(s)
    requires forall path :: At(s'.disk, path) == At(s.disk, path)
    requires forall id :: id in s'.pending ==> id in s.pending && s'.pending[id] == s.pending[id]
    ensures FlatInvariant(s')
  {
    forall id | id in s'.pending ensures EntryInvariant(s', id) {
      assert EntryInvariant(s, id);
    }
  }

  /** After a chunk fails, the entry is still there until the catch handler removes it, and its payload
      may be longer than recorded: the two handlers together keep the invariant. */
  lemma {:induction false} ChunkKeepsFlatInvariant(resolvers: Resolvers, s: Ledger, id: TransferId,
        chunk: TransferFrame, around: Surroundings)
    requires FlatInvariant(s) && chunk.Chunk?
    ensures FlatInvariant(OnFrame(resolvers, s, Transfer(id, chunk), around))
  {
    var s' := OnFrame(resolvers, s, Transfer(id, chunk), around);
    if id in s.pending {
      assert EntryInvariant(s, id);
      WritingOnePayload(s, s', id, s.pending[id].path);
    }
  }

  lemma {:induction false} OfferKeepsFlatInvariant(resolvers: Resolvers, s: Ledger, id: TransferId,
        offer: TransferFrame, around: Surroundings)
    requires FlatInvariant(s) && offer.Offer? && PathIsFree(s, id, OfferPath(s, id, around))
    ensures FlatInvariant(OnFrame(resolvers, s, Transfer(id, offer), around))
  {
    var s' := OnFrame(resolvers, s, Transfer(id, offer), around);
    if id in s.pending { assert EntryInvariant(s, id); }
    if around.pathsOk && around.payloadOk {
      WritingOnePayload(s, s', id, OfferPath(s, id, around));
    } else {
      FewerEntries(s, s');
    }
  }

  lemma {:induction false} AcceptKeepsFlatInvariant(
      s: Ledger, id: TransferId, path: PayloadPath, folder: bool, interrupted: bool, size: nat, around: Surroundings)
    requires FlatInvariant(s) && PathIsFree(s, id, path)
    ensures FlatInvariant(OnAccept(s, id, path, folder, interrupted, size, around))
  {
    var s' := OnAccept(s, id, path, folder, interrupted, size, around);
    var after := Accept(At(s.disk, path), folder, interrupted, size);
    if around.pathsOk && around.payloadOk && after.pending.Some? {
      WritingOnePayload(s, s', id, path);
    } else {
      FewerEntries(s, s');
    }
  }

  lemma {:induction false} StepKeepsFlatInvariant(resolvers: Resolvers, s: Ledger, event: Event)
    requires FlatInvariant(s) && Enabled(s, event) && ChoosesFreePath(s, event)
    ensures FlatInvariant(Step(resolvers, s, event))
  {
    var s' := Step(resolvers, s, event);
    match event
    case StreamClosed(_, _) => FewerEntries(s, s');
    case Withdrawn(_) => FewerEntries(s, s');
    case InvitationAccepted(id, path, folder, interrupted, size, around) =>
      AcceptKeepsFlatInvariant(s, id, path, folder, interrupted, size, around);
    case FrameArrived(frame, around) =>
      if frame.Transfer? && frame.frame.Chunk? {
        ChunkKeepsFlatInvariant(resolvers, s, frame.id, frame.frame, around);
      } else if frame.Transfer? && frame.frame.Offer? {
        OfferKeepsFlatInvariant(resolvers, s, frame.id, frame.frame, around);
      } else {
        FewerEntries(s, s');
      }
  }

  /** Against any frames whatever: in every reachable state a plain transfer has recorded exactly the
      bytes its payload holds, and never more than expected. */
  lemma {:induction false} FlatInvariantOverRun(resolvers: Resolvers, states: seq<Ledger>, events: seq<Event>, n: nat)
    requires IsRun(resolvers, states, events) && n <= |events|
    requires forall k | 0 <= k < |events| :: ChoosesFreePath(states[k], events[k])
    ensures FlatInvariant(states[n])
  {
    if n > 0 {
      FlatInvariantOverRun(resolvers, states, events, n - 1);
      assert IsStep(resolvers, states[n - 1], events[n - 1], states[n]);
      StepKeepsFlatInvariant(resolvers, states[n - 1], events[n - 1]);
    }
  }

  /** A chunk at another offset writes nothing and ends the transfer as failed. */
  lemma {:induction false} WrongOffsetWritesNothing(resolvers: Resolvers, s: Ledger, id: TransferId,
        chunk: TransferFrame, around: Surroundings)
    requires chunk.Chunk? && id in s.pending && s.pending[id].incoming.receivedSize != chunk.offset
    ensures var s' := OnFrame(resolvers, s, Transfer(id, chunk), around);
      && (forall path :: At(s'.disk, path) == At(s.disk, path))
      && s'.pending == s.pending - {id}
      && (around.pathsOk ==> s'.updates == s.updates + [Verdict(id, s.pending[id], Failed)])
  {
  }

  /** What a step that queues this update as completed has seen. */
  ghost predicate CompletedBy(s: Ledger, event: Event, s': Ledger, update: PartUpdate) {
    && event.FrameArrived? && event.frame == Transfer(update.id, Complete(update.fileSize))
    && update.id in s.pending && update.id !in s'.pending
    && s.pending[update.id].incoming.receivedSize == s.pending[update.id].incoming.expectedSize == update.fileSize
    && (!s.pending[update.id].incoming.folderTransfer ==> PayloadLength(At(s'.disk, update.localPath)) == update.fileSize)
  }

  lemma {:induction false} StepCompletes(resolvers: Resolvers, s: Ledger, event: Event, k: nat)
    requires Enabled(s, event) && FlatInvariant(s)
    requires |s.updates| <= k < |Step(resolvers, s, event).updates|
    requires Step(resolvers, s, event).updates[k].state == Completed
    ensures CompletedBy(s, event, Step(resolvers, s, event), Step(resolvers, s, event).updates[k])
  {
    match event
    case StreamClosed(order, pathsOk) =>
      InterruptionsNameEachOnce(s.pending, order, "");
    case FrameArrived(frame, around) =>
      if frame.Transfer? && frame.frame.Complete? {
        HandlerKeepsEntries(resolvers, s, frame, around);
        if frame.id in s.pending { assert EntryInvariant(s, frame.id); }
      } else if frame.Transfer? {
        HandlerKeepsEntries(resolvers, s, frame, around);
      }
    case InvitationAccepted(_, _, _, _, _, _) =>
    case Withdrawn(_) =>
  }

  /** Over a whole run, every `Completed` update in the queue was put there by a complete frame when received,
      expected and announced sizes agreed; the payload of a plain transfer then had exactly that length. */
  lemma {:induction false} CompletedOnlyWhenSizesAgree(resolvers: Resolvers, states: seq<Ledger>, events: seq<Event>,
        n: nat, k: nat)
      returns (m: nat)
    requires IsRun(resolvers, states, events) && n <= |events|
    requires forall i | 0 <= i < |events| :: ChoosesFreePath(states[i], events[i])
    requires k < |states[n].updates| && states[n].updates[k].state == Completed
    ensures m < n && CompletedBy(states[m], events[m], states[m + 1], states[n].updates[k])
  {
    m := n - 1;
    assert IsStep(resolvers, states[m], events[m], states[n]);
    EntryLeavesWithOneVerdict(resolvers, states[m], events[m], states[n].updates[k].id);
    if k < |states[m].updates| {
      m := CompletedOnlyWhenSizesAgree(resolvers, states, events, m, k);
    } else {
      FlatInvariantOverRun(resolvers, states, events, m);
      StepCompletes(resolvers, states[m], events[m], k);
    }
  }

  // ---- Where every update comes from ----

  /** When the handler of a transfer frame throws. An offer: the paths or the payload cannot be had, or a
      directory lies where a file is to start; a complete frame: the paths cannot be had or the sizes differ. */
  ghost predicate FrameThrows(resolvers: Resolvers, s: Ledger, id: TransferId, frame: TransferFrame, around: Surroundings) {
    match frame
    case Offer(_, _, _) =>
      || !around.pathsOk || !around.payloadOk
      || (!OfferIsFolder(s, id, frame, around) && At(s.disk, OfferPath(s, id, around)).FolderTree?)
    case Chunk(_, _, _) => id !in s.pending || ChunkThrows(resolvers, s, id, frame, around)
    case Complete(size) =>
      || id !in s.pending || !around.pathsOk
      || s.pending[id].incoming.receivedSize != s.pending[id].incoming.expectedSize
      || size != s.pending[id].incoming.expectedSize
  }

  lemma {:induction false} HandlerThrowsIff(resolvers: Resolvers, s: Ledger, id: TransferId, frame: TransferFrame,
        around: Surroundings)
    ensures Handle(resolvers, s, Transfer(id, frame), around).1 <==> !FrameThrows(resolvers, s, id, frame, around)
  {
  }

  /** A malformed frame throws; a cancel frame does if its entry is gone but the paths cannot be had. */
  lemma {:induction false} OthersThrowIff(resolvers: Resolvers, s: Ledger, id: TransferId, reason: string, around: Surroundings)
    ensures !Handle(resolvers, s, Malformed, around).1
    ensures Handle(resolvers, s, Cancel(id, reason), around).1 <==> id !in s.pending || around.pathsOk
  {
  }

  /** What a step that queues this verdict has seen: the entry leaves with its own size and path, and the state
      says why. */
  ghost predicate QueuedBy(resolvers: Resolvers, s: Ledger, event: Event, s': Ledger, update: PartUpdate) {
    && update.id in s.pending && update.id !in s'.pending
    && update.fileSize == s.pending[update.id].incoming.expectedSize && update.localPath == s.pending[update.id].path
    && match update.state
       case Completed => CompletedBy(s, event, s', update)
       case Cancelled =>
         event.FrameArrived? && event.frame.Cancel? && event.frame.id == update.id && event.frame.reason != "transfer_failed"
       case Failed =>
         && event.FrameArrived?
         && (event.frame == Cancel(update.id, "transfer_failed")
             || (event.frame.Transfer? && event.frame.id == update.id
                 && FrameThrows(resolvers, s, update.id, event.frame.frame, event.around)))
       case Interrupted => event.StreamClosed? && update.id in event.order
       case _ => false
  }

  /** The same for an update of the state alone: an offer that was taken, or the end of a transfer that has no
      entry here. */
  ghost predicate StateQueuedBy(resolvers: Resolvers, s: Ledger, event: Event, update: StateUpdate) {
    && event.FrameArrived?
    && match update.state
       case Transferring =>
         && event.frame.Transfer? && event.frame.id == update.id && event.frame.frame.Offer?
         && !FrameThrows(resolvers, s, update.id, event.frame.frame, event.around)
       case Cancelled =>
         && update.id !in s.pending
         && event.frame.Cancel? && event.frame.id == update.id && event.frame.reason != "transfer_failed"
       case Failed =>
         && update.id !in s.pending
         && (event.frame == Cancel(update.id, "transfer_failed")
             || (event.frame.Transfer? && event.frame.id == update.id && event.frame.frame.Offer?
                 && FrameThrows(resolvers, s, update.id, event.frame.frame, event.around)))
       case _ => false
  }

  lemma {:induction false} InterruptionsAre(pending: map<TransferId, Entry>, order: seq<TransferId>, k: nat)
    requires forall other :: other in order ==> other in pending
    ensures |Interruptions(pending, order)| == |order|
    ensures k < |order| ==> Interruptions(pending, order)[k] == Verdict(order[k], pending[order[k]], Interrupted)
  {
    if order != [] {
      InterruptionsAre(pending, order[..|order| - 1], k);
    }
  }

  lemma {:induction false} FrameQueues(resolvers: Resolvers, s: Ledger, frame: NetworkFrame, around: Surroundings, k: nat)
    requires FlatInvariant(s) && |s.updates| <= k < |OnFrame(resolvers, s, frame, around).updates|
    ensures var s' := OnFrame(resolvers, s, frame, around);
            QueuedBy(resolvers, s, FrameArrived(frame, around), s', s'.updates[k])
  {
    if frame.Transfer? {
      HandlerKeepsEntries(resolvers, s, frame, around);
      HandlerThrowsIff(resolvers, s, frame.id, frame.frame, around);
      if frame.frame.Complete? && frame.id in s.pending { assert EntryInvariant(s, frame.id); }
    }
  }

  lemma {:induction false} StepQueues(resolvers: Resolvers, s: Ledger, event: Event, k: nat)
    requires Enabled(s, event) && FlatInvariant(s)
    requires |s.updates| <= k < |Step(resolvers, s, event).updates|
    ensures QueuedBy(resolvers, s, event, Step(resolvers, s, event), Step(resolvers, s, event).updates[k])
  {
    match event
    case StreamClosed(order, pathsOk) => InterruptionsAre(s.pending, order, k - |s.updates|);
    case FrameArrived(frame, around) => FrameQueues(resolvers, s, frame, around, k);
    case InvitationAccepted(_, _, _, _, _, _) =>
    case Withdrawn(_) =>
  }

  /** Over a whole run, every update in the queue was put there when its entry left, with its size and path, and
      its state says why: Completed by a complete frame whose sizes agree, Cancelled by a cancel frame, Failed by
      a cancel frame that reports a failure or a frame whose handler threw, Interrupted by a closed stream. */
  lemma {:induction false} EveryVerdictHasItsCause(resolvers: Resolvers, states: seq<Ledger>, events: seq<Event>,
        n: nat, k: nat)
      returns (m: nat)
    requires IsRun(resolvers, states, events) && n <= |events|
    requires forall i | 0 <= i < |events| :: ChoosesFreePath(states[i], events[i])
    requires k < |states[n].updates|
    ensures m < n && QueuedBy(resolvers, states[m], events[m], states[m + 1], states[n].updates[k])
  {
    m := n - 1;
    assert IsStep(resolvers, states[m], events[m], states[n]);
    EntryLeavesWithOneVerdict(resolvers, states[m], events[m], states[n].updates[k].id);
    if k < |states[m].updates| {
      m := EveryVerdictHasItsCause(resolvers, states, events, m, k);
    } else {
      FlatInvariantOverRun(resolvers, states, events, m);
      StepQueues(resolvers, states[m], events[m], k);
    }
  }

  lemma {:induction false} StepQueuesStates(resolvers: Resolvers, s: Ledger, event: Event)
    requires Enabled(s, event)
    ensures s.stateUpdates <= Step(resolvers, s, event).stateUpdates
    ensures forall k | |s.stateUpdates| <= k < |Step(resolvers, s, event).stateUpdates| ::
              StateQueuedBy(resolvers, s, event, Step(resolvers, s, event).stateUpdates[k])
  {
    if event.FrameArrived? && event.frame.Transfer? {
      HandlerThrowsIff(resolvers, s, event.frame.id, event.frame.frame, event.around);
    }
  }

  /** The same for the updates of the state alone. */
  lemma {:induction false} EveryStateUpdateHasItsCause(resolvers: Resolvers, states: seq<Ledger>, events: seq<Event>,
        n: nat, k: nat)
      returns (m: nat)
    requires IsRun(resolvers, states, events) && n <= |events|
    requires |states[0].stateUpdates| <= k < |states[n].stateUpdates|
    ensures m < n && StateQueuedBy(resolvers, states[m], events[m], states[n].stateUpdates[k])
  {
    m := n - 1;
    assert IsStep(resolvers, states[m], events[m], states[n]);
    StepQueuesStates(resolvers, states[m], events[m]);
    if k < |states[m].stateUpdates| {
      m := EveryStateUpdateHasItsCause(resolvers, states, events, m, k);
    }
  }

  /** Conversely, a cancel frame is reported by one update, of the entry if there is one and else of the state
      alone, unless the paths cannot be had. */
  lemma {:induction false} CancelIsReported(resolvers: Resolvers, s: Ledger, id: TransferId, reason: string, around: Surroundings)
    ensures var s', state := OnFrame(resolvers, s, Cancel(id, reason), around),
                             if reason == "transfer_failed" then Failed else Cancelled;
            && id !in s'.pending
            && (id !in s.pending ==> s'.stateUpdates == s.stateUpdates + [StateUpdate(id, state)] && s'.updates == s.updates)
            && (id in s.pending ==> s'.stateUpdates == s.stateUpdates)
            && (id in s.pending && around.pathsOk ==>
                  s'.updates == s.updates + [PartUpdate(id, state, s.pending[id].incoming.expectedSize, s.pending[id].path)])
  {
  }

  /** An offer is reported by one update of the state alone: taken as Transferring, thrown without an entry as
      Failed; thrown with an entry it fails that. */
  lemma {:induction false} OfferIsReported(resolvers: Resolvers, s: Ledger, id: TransferId, offer: TransferFrame,
        around: Surroundings)
    requires offer.Offer?
    ensures var s' := OnFrame(resolvers, s, Transfer(id, offer), around);
            && (!FrameThrows(resolvers, s, id, offer, around) ==>
                  && id in s'.pending && s'.pending[id].incoming.expectedSize == offer.fileSize
                  && s'.stateUpdates == s.stateUpdates + [StateUpdate(id, Transferring)])
            && (FrameThrows(resolvers, s, id, offer, around) ==>
                  && id !in s'.pending
                  && s'.stateUpdates == if id in s.pending then s.stateUpdates else s.stateUpdates + [StateUpdate(id, Failed)])
  {
    HandlerThrowsIff(resolvers, s, id, offer, around);
  }

  // ---- Where a transfer starts ----

  /** The entry starts from what is at its path when it resumes, and otherwise from nothing; the files of a folder
      stay in any case. */
  ghost predicate StartsFrom(before: Target, resumes: bool, entry: Entry, size: nat, after: Target) {
    var incoming := entry.incoming;
    && incoming.expectedSize == size
    && if incoming.folderTransfer then
         && after == (if before.FolderTree? then before else FolderTree(map[]))
         && incoming.receivedSize == if resumes && before.FolderTree? then Min(TreeSize(before.tree), size) else 0
       else
         var payload := if resumes && IsGoneOnFrom(before, size) then before.content else [];
         after == PlainFile(payload) && incoming.receivedSize == |payload|
  }

  /** An offer is for the payload of its entry, else for that of the interrupted part if its path is recorded, else
      for a new one; what is there is gone on from if there is an entry, or if the offer asks to resume and an
      interrupted part was found. */
  ghost predicate OfferTaken(s: Ledger, id: TransferId, offer: TransferFrame, around: Surroundings, s': Ledger)
    requires offer.Offer?
  {
    && id in s'.pending && s'.pending == s.pending[id := s'.pending[id]] && s'.updates == s.updates
    && var entry := s'.pending[id];
    var before, after, folder := At(s.disk, entry.path), At(s'.disk, entry.path), entry.incoming.folderTransfer;
    && s'.disk == s.disk[entry.path := after]
    && if id in s.pending then
         && entry.path == s.pending[id].path && folder == (offer.folderTransfer || s.pending[id].incoming.folderTransfer)
         && StartsFrom(before, true, entry, offer.fileSize, after)
       else match around.interrupted
         case Some(InterruptedPart(Some(path), wasFolder)) =>
           && entry.path == path && folder == (offer.folderTransfer || wasFolder)
           && StartsFrom(before, offer.resumeRequest, entry, offer.fileSize, after)
         case Some(InterruptedPart(None, _)) =>
           && entry.path == around.freshPath && folder == offer.folderTransfer
           && StartsFrom(before, offer.resumeRequest, entry, offer.fileSize, after)
         case None =>
           && entry.path == around.freshPath && folder == offer.folderTransfer
           && StartsFrom(before, false, entry, offer.fileSize, after)
  }

  lemma {:induction false} OfferMakesEntry(resolvers: Resolvers, s: Ledger, id: TransferId, offer: TransferFrame,
        around: Surroundings)
    requires offer.Offer? && !FrameThrows(resolvers, s, id, offer, around)
    ensures OfferTaken(s, id, offer, around, OnFrame(resolvers, s, Transfer(id, offer), around))
  {
    HandlerThrowsIff(resolvers, s, id, offer, around);
  }

  /** An accepted invitation makes an entry at the path it was given, and goes on from an interrupted payload that
      fits; it cannot where a new file is to start and a directory lies, or without paths and payload. */
  lemma {:induction false} AcceptMakesEntry(
      s: Ledger, id: TransferId, path: PayloadPath, folder: bool, interrupted: bool, size: nat, around: Surroundings)
    ensures var s' := OnAccept(s, id, path, folder, interrupted, size, around);
      if !around.pathsOk || !around.payloadOk then s' == s
      else if !folder && !interrupted && At(s.disk, path).FolderTree? then
        s'.pending == s.pending && forall other :: At(s'.disk, other) == At(s.disk, other)
      else
        && id in s'.pending && s'.pending == s.pending[id := s'.pending[id]]
        && var entry := s'.pending[id];
        && entry.path == path && entry.incoming.expectedSize == size && entry.incoming.folderTransfer == folder
        && (folder || !interrupted ==> StartsFrom(At(s.disk, path), interrupted, entry, size, At(s'.disk, path)))
        && (!folder && interrupted ==>
              entry.incoming.receivedSize == if IsGoneOnFrom(At(s.disk, path), size) then |At(s.disk, path).content| else 0)
  {
  }

  // ---- The runtime object ----

  class IncomingTransferRegistry {
    const resolvers: Resolvers
    var pending: map<TransferId, Entry>
    var disk: map<PayloadPath, Target>
    var updates: seq<PartUpdate>
    var stateUpdates: seq<StateUpdate>

    function State(): Ledger
      reads this
    {
      Ledger(pending, disk, updates, stateUpdates)
    }

    constructor (resolvers: Resolvers, disk: map<PayloadPath, Target>)
      ensures this.resolvers == resolvers && State() == Ledger(map[], disk, [], [])
    {
      this.resolvers, this.disk := resolvers, disk;
      pending, updates, stateUpdates := map[], [], [];
    }

    /** Measures what is already on disk for an offer or an accepted invitation. */
    method MeasureExisting(path: PayloadPath, folderTransfer: bool, expectedSize: nat) returns (size: nat)
      modifies this`disk
      ensures (At(disk, path), size) == ExistingSize(At(old(disk), path), folderTransfer, expectedSize)
      ensures forall other :: other != path ==> At(disk, other) == At(old(disk), other)
      ensures disk == old(disk)[path := At(disk, path)]
    {
      var target := At(disk, path);
      disk := disk[path := target];
      size := 0;
      if folderTransfer {
        if target.FolderTree? {
          size := ExistingIncomingFolderPayloadSize(target.tree, expectedSize);
        }
      } else if target.PlainFile? {
        if |target.content| > expectedSize {
          disk := disk[path := Missing];
        } else {
          size := |target.content|;
        }
      }
    }

    /** Measures the payload of an offer if it is resumed, and prepares its place. */
    method PreparePayload(path: PayloadPath, folderTransfer: bool, resume: bool, fileSize: nat)
        returns (prepared: Option<PendingIncoming>)
      modifies this`disk
      ensures var after := ReceiveOffer(At(old(disk), path), folderTransfer, resume, fileSize);
              disk == old(disk)[path := after.target] && prepared == after.pending
    {
      disk := disk[path := At(disk, path)];
      var receivedSize := 0;
      if resume {
        receivedSize := MeasureExisting(path, folderTransfer, fileSize);
      }
      if folderTransfer {
        disk := disk[path := PrepareFolderRoot(At(disk, path))];
      } else if receivedSize == 0 {
        var created := CreatePayloadFile(At(disk, path));
        if created.None? { return None; }
        disk := disk[path := created.value];
      }
      return Some(PendingIncoming(fileSize, receivedSize, folderTransfer));
    }

    method HandleOffer(id: TransferId, offer: TransferFrame, around: Surroundings) returns (ok: bool)
      requires offer.Offer?
      modifies this
      ensures (State(), ok) == OnOffer(old(State()), id, offer, around)
    {
      if !around.pathsOk || !around.payloadOk { return false; }
      var path, folderTransfer := around.freshPath, offer.folderTransfer;
      if id in pending {
        path := pending[id].path;
        folderTransfer := pending[id].incoming.folderTransfer || folderTransfer;
      } else if around.interrupted.Some? && around.interrupted.value.path.Some? {
        path := around.interrupted.value.path.value;
        folderTransfer := around.interrupted.value.folder || folderTransfer;
      }
      var resume := id in pending || (offer.resumeRequest && around.interrupted.Some?);
      var prepared := PreparePayload(path, folderTransfer, resume, offer.fileSize);
      if prepared.None? { return false; }
      pending := pending[id := Entry(path, prepared.value)];
      stateUpdates := stateUpdates + [StateUpdate(id, Transferring)];
      return true;
    }

    method HandleChunk(id: TransferId, chunk: TransferFrame, around: Surroundings) returns (ok: bool)
      requires chunk.Chunk?
      modifies this
      ensures (State(), ok) == OnChunk(resolvers, old(State()), id, chunk, around)
    {
      if id !in pending || !around.payloadOk { return false; }
      var Entry(path, incoming) := pending[id];
      disk := disk[path := At(disk, path)];
      if incoming.receivedSize != chunk.offset { return false; }
      var (target, written) := WriteChunk(resolvers(path), disk[path], incoming, chunk);
      disk := disk[path := target];
      assert disk == old(disk)[path := target];
      if !written { return false; }
      var receivedSize := incoming.receivedSize + |chunk.body|;
      if receivedSize > incoming.expectedSize { return false; }
      pending := pending[id := Entry(path, incoming.(receivedSize := receivedSize))];
      return true;
    }

    method HandleComplete(id: TransferId, completeSize: nat, around: Surroundings) returns (ok: bool)
      modifies this
      ensures (State(), ok) == OnComplete(old(State()), id, completeSize, around)
    {
      if id !in pending { return false; }
      var transfer := pending[id];
      if transfer.incoming.receivedSize != transfer.incoming.expectedSize
         || completeSize != transfer.incoming.expectedSize || !around.pathsOk {
        return false;
      }
      updates := updates + [PartUpdate(id, Completed, transfer.incoming.expectedSize, transfer.path)];
      pending := pending - {id};
      return true;
    }

    method HandleCancel(id: TransferId, reason: string, around: Surroundings) returns (ok: bool)
      modifies this
      ensures (State(), ok) == OnCancel(old(State()), id, reason, around)
    {
      var cancelState := if reason == "transfer_failed" then Failed else Cancelled;
      if id in pending {
        var cancelled := pending[id];
        pending := pending - {id};
        if !around.pathsOk { return false; }
        updates := updates + [PartUpdate(id, cancelState, cancelled.incoming.expectedSize, cancelled.path)];
        return true;
      }
      stateUpdates := stateUpdates + [StateUpdate(id, cancelState)];
      return true;
    }

    method FailIncomingTransferFromFrame(frame: NetworkFrame, around: Surroundings)
      modifies this
      ensures State() == FailFromFrame(old(State()), frame, around)
    {
      if !frame.Transfer? { return; }
      if frame.id in pending {
        var failed := pending[frame.id];
        pending := pending - {frame.id};
        if !around.pathsOk { return; }
        updates := updates + [PartUpdate(frame.id, Failed, failed.incoming.expectedSize, failed.path)];
        return;
      }
      if frame.frame.Offer? {
        stateUpdates := stateUpdates + [StateUpdate(frame.id, Failed)];
      }
    }

    /** The frame callback: the handler and, if it throws, the catch handler. */
    method OnFrameReceived(frame: NetworkFrame, around: Surroundings)
      modifies this
      ensures State() == OnFrame(resolvers, old(State()), frame, around)
    {
      var ok := false;
      match frame {
        case Malformed =>
        case Cancel(id, reason) => ok := HandleCancel(id, reason, around);
        case Transfer(id, inner) =>
          match inner {
            case Offer(_, _, _) => ok := HandleOffer(id, inner, around);
            case Chunk(_, _, _) => ok := HandleChunk(id, inner, around);
            case Complete(size) => ok := HandleComplete(id, size, around);
          }
      }
      if !ok {
        FailIncomingTransferFromFrame(frame, around);
      }
    }

    /** Visits the hash map in whatever order it has. */
    method InterruptPendingIncomingTransfers() returns (ghost order: seq<TransferId>)
      modifies this
      ensures IsOrderOf(order, old(pending).Keys)
      ensures State() == OnStreamClosed(old(State()), order)
    {
      order := [];
      var interruptions := [];
      var left := pending.Keys;
      while left != {}
        invariant left <= pending.Keys && IsOrderOf(order, pending.Keys - left)
        invariant interruptions == Interruptions(pending, order)
        decreases left
      {
        var id :| id in left;
        var transfer := pending[id];
        interruptions := interruptions + [PartUpdate(id, Interrupted, transfer.incoming.expectedSize, transfer.path)];
        assert (order + [id])[..|order|] == order;
        order, left := order + [id], left - {id};
      }
      updates := updates + interruptions;
      pending := map[];
    }

    /** Rejecting or cancelling an incoming transfer by hand. */
    method Withdraw(id: TransferId)
      modifies this
      ensures State() == old(State()).(pending := old(pending) - {id})
    {
      pending := pending - {id};
    }
  }
}
