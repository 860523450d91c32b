/** The queues between the network threads and the records: updates wait there until a drain applies them,
    and those that cannot be applied yet stay queued (src/main/app_runtime.cpp). */
module TransferQueues {
  import opened Prelude
  import opened TransferStates
  import opened TransferRecords

  // ---- Drains ----

  /** Applies one update to the records; `None` means it was not applied. */
  type Applier<!U> = (Records, U) -> Option<Records>

  function OnPart(records: Records, u: PartUpdate): Option<Records> {
    if u.messageId !in records then None
    else
      var record := ApplyPart(records[u.messageId], u);
      if record.None? then None else Some(records[u.messageId := record.value])
  }

  function OnState(records: Records, u: StateUpdate): Option<Records> {
    if u.messageId !in records then None
    else
      var record := ApplyState(records[u.messageId], u);
      if record.None? then None else Some(records[u.messageId := record.value])
  }

  function OnProgress(records: Records, u: ProgressUpdate): Option<Records> {
    if u.messageId !in records then None
    else
      var record := ApplyProgress(records[u.messageId], u);
      if record.None? then None else Some(records[u.messageId := record.value])
  }

  /** The records and the updates left over after taking all updates in order. */
  function Drain<U>(apply: Applier<U>, records: Records, updates: seq<U>): (Records, seq<U>) {
    if updates == [] then (records, [])
    else
      var (before, left) := Drain(apply, records, updates[..|updates| - 1]);
      var last := updates[|updates| - 1];
      var after := apply(before, last);
      if after.None? then (before, left + [last]) else (after.value, left)
  }

  ghost predicate Refused<U>(apply: Applier<U>, records: Records, updates: seq<U>, k: nat)
    requires k < |updates|
  {
    apply(Drain(apply, records, updates[..k]).0, updates[k]).None?
  }

  ghost predicate Ascending(positions: seq<nat>, length: nat) {
    && (forall i | 0 <= i < |positions| :: positions[i] < length)
    && (forall i, j | 0 <= i < j < |positions| :: positions[i] < positions[j])
  }

  /** A drain keeps exactly the updates that were refused at their turn, each once and in order. */
  lemma {:induction false} DrainKeepsRefused<U>(apply: Applier<U>, records: Records, updates: seq<U>) returns (positions: seq<nat>)
    ensures var left := Drain(apply, records, updates).1;
      && Ascending(positions, |updates|) && |positions| == |left|
      && (forall i | 0 <= i < |left| :: left[i] == updates[positions[i]])
      && (forall k | 0 <= k < |updates| :: k in positions <==> Refused(apply, records, updates, k))
  {
    if updates == [] {
      positions := [];
    } else {
      var n := |updates| - 1;
      var front := updates[..n];
      positions := DrainKeepsRefused(apply, records, front);
      forall k | 0 <= k < n ensures Refused(apply, records, updates, k) <==> Refused(apply, records, front, k) {
        assert updates[..k] == front[..k];
      }
      if Refused(apply, records, updates, n) {
        positions := positions + [n];
      }
    }
  }

  // ---- The runtime object ----

  datatype World = World(
    records: Records, partQueue: seq<PartUpdate>, stateQueue: seq<StateUpdate>, progressQueue: seq<ProgressUpdate>)

  predicate SameTarget(a: ProgressUpdate, b: ProgressUpdate) {
    a.transferId == b.transferId && a.messageId == b.messageId && a.partId == b.partId
  }

  /** `enqueueTransferProgressUpdate`: a waiting update of the same target takes the new size. */
  function Coalesced(queue: seq<ProgressUpdate>, u: ProgressUpdate): seq<ProgressUpdate> {
    if queue == [] then [u]
    else if SameTarget(queue[0], u) then [queue[0].(transferredSize := u.transferredSize)] + queue[1..]
    else [queue[0]] + Coalesced(queue[1..], u)
  }

  /** The first update of the same target takes the place of the new one, or the new one is appended. */
  lemma {:induction false} CoalescedIs(queue: seq<ProgressUpdate>, u: ProgressUpdate, j: nat)
    requires j <= |queue| && (j < |queue| ==> SameTarget(queue[j], u))
    requires forall k | 0 <= k < j :: !SameTarget(queue[k], u)
    ensures Coalesced(queue, u) == if j == |queue| then queue + [u] else queue[j := u]
    decreases queue
  {
    if j > 0 {
      CoalescedIs(queue[1..], u, j - 1);
      assert queue == [queue[0]] + queue[1..];
    } else if queue != [] {
      assert queue == [queue[0]] + queue[1..];
    }
  }

  class UpdateQueues {
    var records: Records
    var partQueue: seq<PartUpdate>
    var stateQueue: seq<StateUpdate>
    var progressQueue: seq<ProgressUpdate>

    function State(): World
      reads this
    {
      World(records, partQueue, stateQueue, progressQueue)
    }

    constructor (records: Records)
      ensures State() == World(records, [], [], [])
    {
      this.records := records;
      partQueue, stateQueue, progressQueue := [], [], [];
    }

    method EnqueueTransferUpdate(u: PartUpdate)
      modifies this
      ensures State() == old(State()).(partQueue := old(partQueue) + [u])
    {
      partQueue := partQueue + [u];
    }

    method EnqueueTransferStateUpdate(u: StateUpdate)
      modifies this
      ensures State() == old(State()).(stateQueue := old(stateQueue) + [u])
    {
      stateQueue := stateQueue + [u];
    }

    method EnqueueTransferProgressUpdate(u: ProgressUpdate)
      modifies this
      ensures State() == old(State()).(progressQueue := Coalesced(old(progressQueue), u))
    {
      for i := 0 to |progressQueue|
        invariant State() == old(State())
        invariant forall k | 0 <= k < i :: !SameTarget(progressQueue[k], u)
      {
        if SameTarget(progressQueue[i], u) {
          CoalescedIs(progressQueue, u, i);
          progressQueue := progressQueue[i := progressQueue[i].(transferredSize := u.transferredSize)];
          return;
        }
      }
      CoalescedIs(progressQueue, u, |progressQueue|);
      progressQueue := progressQueue + [u];
    }

    method DrainPendingTransferUpdates()
      modifies this
      ensures (records, partQueue) == Drain(OnPart, old(records), old(partQueue))
      ensures stateQueue == old(stateQueue) && progressQueue == old(progressQueue)
    {
      var updates := partQueue;
      partQueue := [];
      for i := 0 to |updates|
        invariant (records, partQueue) == Drain(OnPart, old(records), updates[..i])
        invariant stateQueue == old(stateQueue) && progressQueue == old(progressQueue)
      {
        assert updates[..i + 1][..i] == updates[..i];
        var u := updates[i];
        var updated: Option<Record> := None;
        if u.messageId in records { updated := ApplyTransferPartUpdate(records[u.messageId], u); }
        if updated.Some? {
          records := records[u.messageId := updated.value];
        } else {
          partQueue := partQueue + [u];
        }
      }
      assert updates[..|updates|] == updates;
    }

    method DrainPendingTransferStateUpdates()
      modifies this
      ensures (records, stateQueue) == Drain(OnState, old(records), old(stateQueue))
      ensures partQueue == old(partQueue) && progressQueue == old(progressQueue)
    {
      var updates := stateQueue;
      stateQueue := [];
      for i := 0 to |updates|
        invariant (records, stateQueue) == Drain(OnState, old(records), updates[..i])
        invariant partQueue == old(partQueue) && progressQueue == old(progressQueue)
      {
        assert updates[..i + 1][..i] == updates[..i];
        var u := updates[i];
        var updated: Option<Record> := None;
        if u.messageId in records { updated := ApplyTransferPartStateUpdate(records[u.messageId], u); }
        if updated.Some? {
          records := records[u.messageId := updated.value];
        } else {
          stateQueue := stateQueue + [u];
        }
      }
      assert updates[..|updates|] == updates;
    }

    method DrainPendingTransferProgressUpdates()
      modifies this
      ensures (records, progressQueue) == Drain(OnProgress, old(records), old(progressQueue))
      ensures partQueue == old(partQueue) && stateQueue == old(stateQueue)
    {
      var updates := progressQueue;
      progressQueue := [];
      for i := 0 to |updates|
        invariant (records, progressQueue) == Drain(OnProgress, old(records), updates[..i])
        invariant partQueue == old(partQueue) && stateQueue == old(stateQueue)
      {
        assert updates[..i + 1][..i] == updates[..i];
        var u := updates[i];
        var updated: Option<Record> := None;
        if u.messageId in records { updated := ApplyTransferPartProgressUpdate(records[u.messageId], u); }
        if updated.Some? {
          records := records[u.messageId := updated.value];
        } else {
          progressQueue := progressQueue + [u];
        }
      }
      assert updates[..|updates|] == updates;
    }
  }

  // ---- The user's steps and outgoing requests ----

  /** The first part with this id, or the number of parts. */
  function IndexOf(parts: seq<Part>, partId: string): (index: nat)
    ensures index <= |parts| && (index < |parts| ==> parts[index].partId == partId)
  {
    if parts == [] || parts[0].partId == partId then 0 else 1 + IndexOf(parts[1..], partId)
  }

  predicate IsInvite(part: Part) {
    part.kind.File? || part.kind.Folder?
  }

  function WithPart(records: Records, id: string, i: nat, part: Part): Records
    requires id in records && i < |records[id].parts|
  {
    records[id := records[id].(parts := records[id].parts[i := part])]
  }

  /** The part a user's step is about, if its record and state allow the step. */
  function Chosen(records: Records, id: string, partId: string, states: set<TransferState>): Option<nat> {
    if id !in records then None
    else
      var i := IndexOf(records[id].parts, partId);
      if i == |records[id].parts| then None
      else
        var part := records[id].parts[i];
        if IsInvite(part) && part.transferId.Some? && part.state.Some? && part.state.value in states then Some(i) else None
  }

  function Accept(records: Records, id: string, partId: string, resumeOffset: nat, localPath: string): Records {
    var i := Chosen(records, id, partId, {Offered, Interrupted});
    if i.None? || !records[id].incoming || records[id].parts[i.value].fileName.None? then records
    else
      WithPart(records, id, i.value, records[id].parts[i.value].(
        state := Some(Transferring), transferredSize := Some(resumeOffset), localPath := Some(localPath)))
  }

  function Reject(records: Records, id: string, partId: string): Records {
    var i := Chosen(records, id, partId, {Offered});
    if i.None? || !records[id].incoming then records
    else WithPart(records, id, i.value, records[id].parts[i.value].(state := Some(Rejected)))
  }

  function Cancel(records: Records, id: string, partId: string): Records {
    var i := Chosen(records, id, partId, {Offered, Transferring});
    if i.None? || (records[id].incoming && records[id].parts[i.value].state != Some(Transferring)) then records
    else WithPart(records, id, i.value, records[id].parts[i.value].(state := Some(Cancelled)))
  }

  function Recover(records: Records, id: string, active: set<string>): Records {
    if id !in records then records
    else records[id := records[id].(parts := AllRecovered(records[id].parts, active))]
  }

  function AllRecovered(parts: seq<Part>, active: set<string>): (recovered: seq<Part>)
    ensures |recovered| == |parts|
    ensures forall i | 0 <= i < |parts| :: recovered[i] == Recovered(parts[i], active)
  {
    if parts == [] then [] else [Recovered(parts[0], active)] + AllRecovered(parts[1..], active)
  }

  datatype OutgoingRequest = OutgoingRequest(messageId: string, partId: string, transferId: string, resumeOffset: nat)

  /** `sendOutgoingTransferRequest` up to the start of the sending task. */
  function SendRequest(w: World, request: OutgoingRequest, peerReachable: bool): World {
    var OutgoingRequest(id, partId, transferId, resumeOffset) := request;
    var failed := w.(stateQueue := w.stateQueue + [StateUpdate(id, partId, transferId, Failed)]);
    if !peerReachable || id !in w.records || w.records[id].incoming then failed
    else if !HasSendableState(w.records[id].parts, partId, transferId) then w
    else
      var sending := ApplyState(w.records[id], StateUpdate(id, partId, transferId, Transferring));
      if sending.None? then failed
      else
        var resumed := if resumeOffset > 0 then ApplyProgress(sending.value, ProgressUpdate(id, partId, transferId, resumeOffset)) else None;
        w.(records := w.records[id := if resumed.Some? then resumed.value else sending.value])
  }

  // ---- Whole runs ----

  datatype Event =
    | EnqueuePart(partUpdate: PartUpdate)
    | EnqueueState(stateUpdate: StateUpdate)
    | EnqueueProgress(progressUpdate: ProgressUpdate)
    | DrainParts
    | DrainStates
    | DrainProgress
    | NewRecord(id: string, record: Record)
    | UserAccepts(id: string, partId: string, resumeOffset: nat, localPath: string)
    | UserRejects(id: string, partId: string)
    | UserCancels(id: string, partId: string)
    | Recovery(id: string, active: set<string>)
    | SendRequested(request: OutgoingRequest, peerReachable: bool)

  function Step(w: World, event: Event): World {
    match event
    case EnqueuePart(u) => w.(partQueue := w.partQueue + [u])
    case EnqueueState(u) => w.(stateQueue := w.stateQueue + [u])
    case EnqueueProgress(u) => w.(progressQueue := Coalesced(w.progressQueue, u))
    case DrainParts =>
      var (records, left) := Drain(OnPart, w.records, w.partQueue);
      w.(records := records, partQueue := left)
    case DrainStates =>
      var (records, left) := Drain(OnState, w.records, w.stateQueue);
      w.(records := records, stateQueue := left)
    case DrainProgress =>
      var (records, left) := Drain(OnProgress, w.records, w.progressQueue);
      w.(records := records, progressQueue := left)
    case NewRecord(id, record) => if id in w.records then w else w.(records := w.records[id := record])
    case UserAccepts(id, partId, resumeOffset, localPath) => w.(records := Accept(w.records, id, partId, resumeOffset, localPath))
    case UserRejects(id, partId) => w.(records := Reject(w.records, id, partId))
    case UserCancels(id, partId) => w.(records := Cancel(w.records, id, partId))
    case Recovery(id, active) => w.(records := Recover(w.records, id, active))
    case SendRequested(request, peerReachable) => SendRequest(w, request, peerReachable)
  }

  function Run(w: World, events: seq<Event>): World {
    if events == [] then w else Step(Run(w, events[..|events| - 1]), events[|events| - 1])
  }

  // ---- Final states are absorbing ----

  lemma {:induction false} KeepsFinalIsTransitive(a: Records, b: Records, c: Records)
    requires RecordsKeepFinal(a, b) && RecordsKeepFinal(b, c)
    ensures RecordsKeepFinal(a, c)
  {
    forall id | id in a ensures id in c && RecordKeepsFinal(a[id], c[id]) {
      assert RecordKeepsFinal(a[id], b[id]) && RecordKeepsFinal(b[id], c[id]);
      forall i | 0 <= i < |a[id].parts| ensures KeepsFinal(a[id].parts[i], c[id].parts[i]) {
        assert KeepsFinal(a[id].parts[i], b[id].parts[i]) && KeepsFinal(b[id].parts[i], c[id].parts[i]);
      }
    }
  }

  lemma {:induction false} ChangingOnePart(records: Records, id: string, i: nat, part: Part)
    requires id in records && i < |records[id].parts| && KeepsFinal(records[id].parts[i], part)
    ensures RecordsKeepFinal(records, WithPart(records, id, i, part))
  {
  }

  lemma {:induction false} PartKeepsFinal(records: Records, u: PartUpdate)
    ensures OnPart(records, u).Some? ==> RecordsKeepFinal(records, OnPart(records, u).value)
  {
    if OnPart(records, u).Some? {
      var parts := records[u.messageId].parts;
      var i := FirstMatch(parts, u.partId, u.transferId);
      ChangingOnePart(records, u.messageId, i, PartChanged(parts[i], u));
    }
  }

  lemma {:induction false} StateKeepsFinal(records: Records, u: StateUpdate)
    ensures OnState(records, u).Some? ==> RecordsKeepFinal(records, OnState(records, u).value)
  {
    if OnState(records, u).Some? {
      var parts := records[u.messageId].parts;
      var i := FirstMatch(parts, u.partId, u.transferId);
      ChangingOnePart(records, u.messageId, i, StateChanged(parts[i], u.state));
    }
  }

  lemma {:induction false} ProgressKeepsFinal(records: Records, u: ProgressUpdate)
    ensures OnProgress(records, u).Some? ==> RecordsKeepFinal(records, OnProgress(records, u).value)
  {
    if OnProgress(records, u).Some? {
      var parts := records[u.messageId].parts;
      var i := FirstMatch(parts, u.partId, u.transferId);
      ChangingOnePart(records, u.messageId, i, WithProgress(parts[i], u.transferredSize));
    }
  }

  lemma {:induction false} DrainPartsKeepsFinal(records: Records, updates: seq<PartUpdate>)
    ensures RecordsKeepFinal(records, Drain(OnPart, records, updates).0)
  {
    if updates != [] {
      var before := Drain(OnPart, records, updates[..|updates| - 1]).0;
      DrainPartsKeepsFinal(records, updates[..|updates| - 1]);
      PartKeepsFinal(before, updates[|updates| - 1]);
      if OnPart(before, updates[|updates| - 1]).Some? {
        KeepsFinalIsTransitive(records, before, OnPart(before, updates[|updates| - 1]).value);
      }
    }
  }

  lemma {:induction false} DrainStatesKeepsFinal(records: Records, updates: seq<StateUpdate>)
    ensures RecordsKeepFinal(records, Drain(OnState, records, updates).0)
  {
    if updates != [] {
      var before := Drain(OnState, records, updates[..|updates| - 1]).0;
      DrainStatesKeepsFinal(records, updates[..|updates| - 1]);
      StateKeepsFinal(before, updates[|updates| - 1]);
      if OnState(before, updates[|updates| - 1]).Some? {
        KeepsFinalIsTransitive(records, before, OnState(before, updates[|updates| - 1]).value);
      }
    }
  }

  lemma {:induction false} DrainProgressKeepsFinal(records: Records, updates: seq<ProgressUpdate>)
    ensures RecordsKeepFinal(records, Drain(OnProgress, records, updates).0)
  {
    if updates != [] {
      var before := Drain(OnProgress, records, updates[..|updates| - 1]).0;
      DrainProgressKeepsFinal(records, updates[..|updates| - 1]);
      ProgressKeepsFinal(before, updates[|updates| - 1]);
      if OnProgress(before, updates[|updates| - 1]).Some? {
        KeepsFinalIsTransitive(records, before, OnProgress(before, updates[|updates| - 1]).value);
      }
    }
  }

  lemma {:induction false} UserStepsKeepFinal(w: World, event: Event)
    requires event.UserAccepts? || event.UserRejects? || event.UserCancels? || event.Recovery? || event.NewRecord?
    ensures RecordsKeepFinal(w.records, Step(w, event).records)
  {
    match event
    case UserAccepts(id, partId, resumeOffset, localPath) =>
      var i := Chosen(w.records, id, partId, {Offered, Interrupted});
      if i.Some? {
        ChangingOnePart(w.records, id, i.value, w.records[id].parts[i.value].(
          state := Some(Transferring), transferredSize := Some(resumeOffset), localPath := Some(localPath)));
      }
    case UserRejects(id, partId) =>
      var i := Chosen(w.records, id, partId, {Offered});
      if i.Some? { ChangingOnePart(w.records, id, i.value, w.records[id].parts[i.value].(state := Some(Rejected))); }
    case UserCancels(id, partId) =>
      var i := Chosen(w.records, id, partId, {Offered, Transferring});
      if i.Some? { ChangingOnePart(w.records, id, i.value, w.records[id].parts[i.value].(state := Some(Cancelled))); }
    case _ =>
  }

  lemma {:induction false} RequestKeepsFinal(w: World, request: OutgoingRequest, peerReachable: bool)
    ensures RecordsKeepFinal(w.records, SendRequest(w, request, peerReachable).records)
  {
    var OutgoingRequest(id, partId, transferId, resumeOffset) := request;
    var sending := OnState(w.records, StateUpdate(id, partId, transferId, Transferring));
    StateKeepsFinal(w.records, StateUpdate(id, partId, transferId, Transferring));
    if sending.Some? {
      var progress := ProgressUpdate(id, partId, transferId, resumeOffset);
      var resumed := OnProgress(sending.value, progress);
      ProgressKeepsFinal(sending.value, progress);
      if resumed.Some? {
        KeepsFinalIsTransitive(w.records, sending.value, resumed.value);
        assert resumed.value == w.records[id := resumed.value[id]];
      }
    }
  }

  lemma {:induction false} StepKeepsFinal(w: World, event: Event)
    ensures RecordsKeepFinal(w.records, Step(w, event).records)
  {
    match event
    case DrainParts => DrainPartsKeepsFinal(w.records, w.partQueue);
    case DrainStates => DrainStatesKeepsFinal(w.records, w.stateQueue);
    case DrainProgress => DrainProgressKeepsFinal(w.records, w.progressQueue);
    case SendRequested(request, peerReachable) => RequestKeepsFinal(w, request, peerReachable);
    case EnqueuePart(_) =>
    case EnqueueState(_) =>
    case EnqueueProgress(_) =>
    case _ => UserStepsKeepFinal(w, event);
  }

  /** On every run, a part that is completed, cancelled or rejected stays so. */
  lemma {:induction false} FinalStatesAreAbsorbing(w: World, events: seq<Event>)
    ensures RecordsKeepFinal(w.records, Run(w, events).records)
  {
    if events != [] {
      var before := Run(w, events[..|events| - 1]);
      FinalStatesAreAbsorbing(w, events[..|events| - 1]);
      StepKeepsFinal(before, events[|events| - 1]);
      KeepsFinalIsTransitive(w.records, before.records, Run(w, events).records);
    }
  }

  // ---- Progress stays within the size ----

  ghost predicate AllWithinSize(records: Records) {
    forall id :: id in records ==> RecordWithinSize(records[id])
  }

  ghost predicate RecordWithinSize(record: Record) {
    forall i | 0 <= i < |record.parts| :: WithinSize(record.parts[i])
  }

  /** The part update does not change the size of the part it finds. */
  predicate KeepsSize(records: Records, u: PartUpdate) {
    u.messageId in records ==>
      var parts := records[u.messageId].parts;
      var i := FirstMatch(parts, u.partId, u.transferId);
      i < |parts| ==> parts[i].fileSize == Some(u.fileSize)
  }

  ghost predicate DrainKeepsSizes(records: Records, updates: seq<PartUpdate>) {
    forall k | 0 <= k < |updates| :: KeepsSize(Drain(OnPart, records, updates[..k]).0, updates[k])
  }

  /** Sizes are fixed: no part update changes one, and an accepted offset was measured against it. */
  ghost predicate SizesFixed(w: World, event: Event) {
    match event
    case DrainParts => DrainKeepsSizes(w.records, w.partQueue)
    case NewRecord(_, record) => RecordWithinSize(record)
    case UserAccepts(id, partId, resumeOffset, _) =>
      id in w.records ==>
        var parts := w.records[id].parts;
        var i := IndexOf(parts, partId);
        i < |parts| ==> resumeOffset <= if parts[i].fileSize.Some? then parts[i].fileSize.value else 0
    case _ => true
  }

  lemma {:induction false} ChangingOneSize(records: Records, id: string, i: nat, part: Part)
    requires AllWithinSize(records) && id in records && i < |records[id].parts| && WithinSize(part)
    ensures AllWithinSize(WithPart(records, id, i, part))
  {
    forall other | other in records ensures RecordWithinSize(WithPart(records, id, i, part)[other]) {
      assert RecordWithinSize(records[other]);
    }
  }

  lemma {:induction false} DrainPartsWithinSize(records: Records, updates: seq<PartUpdate>)
    requires AllWithinSize(records) && DrainKeepsSizes(records, updates)
    ensures AllWithinSize(Drain(OnPart, records, updates).0)
  {
    if updates != [] {
      var n := |updates| - 1;
      var u, before := updates[n], Drain(OnPart, records, updates[..n]).0;
      forall k | 0 <= k < n ensures KeepsSize(Drain(OnPart, records, updates[..n][..k]).0, updates[..n][k]) {
        assert updates[..n][..k] == updates[..k];
      }
      DrainPartsWithinSize(records, updates[..n]);
      assert KeepsSize(before, u);
      if OnPart(before, u).Some? {
        var parts := before[u.messageId].parts;
        var i := FirstMatch(parts, u.partId, u.transferId);
        assert RecordWithinSize(before[u.messageId]);
        PartUpdateKeepsWithinSize(parts[i], u);
        ChangingOneSize(before, u.messageId, i, PartChanged(parts[i], u));
      }
    }
  }

  lemma {:induction false} StateWithinSize(records: Records, u: StateUpdate)
    requires AllWithinSize(records)
    ensures OnState(records, u).Some? ==> AllWithinSize(OnState(records, u).value)
  {
    if OnState(records, u).Some? {
      var parts := records[u.messageId].parts;
      var i := FirstMatch(parts, u.partId, u.transferId);
      assert RecordWithinSize(records[u.messageId]);
      UpdatesKeepWithinSize(parts[i], 0, u.state);
      ChangingOneSize(records, u.messageId, i, StateChanged(parts[i], u.state));
    }
  }

  lemma {:induction false} ProgressWithinSize(records: Records, u: ProgressUpdate)
    requires AllWithinSize(records)
    ensures OnProgress(records, u).Some? ==> AllWithinSize(OnProgress(records, u).value)
  {
    if OnProgress(records, u).Some? {
      var parts := records[u.messageId].parts;
      var i := FirstMatch(parts, u.partId, u.transferId);
      UpdatesKeepWithinSize(parts[i], u.transferredSize, Failed);
      ChangingOneSize(records, u.messageId, i, WithProgress(parts[i], u.transferredSize));
    }
  }

  lemma {:induction false} DrainStatesWithinSize(records: Records, updates: seq<StateUpdate>)
    requires AllWithinSize(records)
    ensures AllWithinSize(Drain(OnState, records, updates).0)
  {
    if updates != [] {
      DrainStatesWithinSize(records, updates[..|updates| - 1]);
      StateWithinSize(Drain(OnState, records, updates[..|updates| - 1]).0, updates[|updates| - 1]);
    }
  }

  lemma {:induction false} DrainProgressWithinSize(records: Records, updates: seq<ProgressUpdate>)
    requires AllWithinSize(records)
    ensures AllWithinSize(Drain(OnProgress, records, updates).0)
  {
    if updates != [] {
      DrainProgressWithinSize(records, updates[..|updates| - 1]);
      ProgressWithinSize(Drain(OnProgress, records, updates[..|updates| - 1]).0, updates[|updates| - 1]);
    }
  }

  lemma {:induction false} UserStepsWithinSize(w: World, event: Event)
    requires AllWithinSize(w.records) && SizesFixed(w, event)
    requires event.UserAccepts? || event.UserRejects? || event.UserCancels? || event.Recovery? || event.NewRecord?
    ensures AllWithinSize(Step(w, event).records)
  {
    match event
    case UserAccepts(id, partId, resumeOffset, localPath) =>
      var i := Chosen(w.records, id, partId, {Offered, Interrupted});
      if i.Some? {
        ChangingOneSize(w.records, id, i.value, w.records[id].parts[i.value].(
          state := Some(Transferring), transferredSize := Some(resumeOffset), localPath := Some(localPath)));
      }
    case UserRejects(id, partId) =>
      var i := Chosen(w.records, id, partId, {Offered});
      if i.Some? {
        assert RecordWithinSize(w.records[id]) && WithinSize(w.records[id].parts[i.value]);
        ChangingOneSize(w.records, id, i.value, w.records[id].parts[i.value].(state := Some(Rejected)));
      }
    case UserCancels(id, partId) =>
      var i := Chosen(w.records, id, partId, {Offered, Transferring});
      if i.Some? {
        assert RecordWithinSize(w.records[id]) && WithinSize(w.records[id].parts[i.value]);
        ChangingOneSize(w.records, id, i.value, w.records[id].parts[i.value].(state := Some(Cancelled)));
      }
    case Recovery(id, active) =>
      if id in w.records {
        assert RecordWithinSize(w.records[id]);
        forall i | 0 <= i < |w.records[id].parts| ensures WithinSize(AllRecovered(w.records[id].parts, active)[i]) {
          assert WithinSize(w.records[id].parts[i]);
        }
      }
    case NewRecord(_, _) =>
  }

  lemma {:induction false} RequestWithinSize(w: World, request: OutgoingRequest, peerReachable: bool)
    requires AllWithinSize(w.records)
    ensures AllWithinSize(SendRequest(w, request, peerReachable).records)
  {
    var OutgoingRequest(id, partId, transferId, resumeOffset) := request;
    var sending := OnState(w.records, StateUpdate(id, partId, transferId, Transferring));
    StateWithinSize(w.records, StateUpdate(id, partId, transferId, Transferring));
    if sending.Some? {
      var resumed := OnProgress(sending.value, ProgressUpdate(id, partId, transferId, resumeOffset));
      ProgressWithinSize(sending.value, ProgressUpdate(id, partId, transferId, resumeOffset));
      if resumed.Some? { assert resumed.value == w.records[id := resumed.value[id]]; }
    }
  }

  /** One step with fixed sizes keeps all progress within them. */
  lemma {:induction false} StepWithinSize(w: World, event: Event)
    requires AllWithinSize(w.records) && SizesFixed(w, event)
    ensures AllWithinSize(Step(w, event).records)
  {
    match event
    case DrainParts => DrainPartsWithinSize(w.records, w.partQueue);
    case DrainStates => DrainStatesWithinSize(w.records, w.stateQueue);
    case DrainProgress => DrainProgressWithinSize(w.records, w.progressQueue);
    case SendRequested(request, peerReachable) => RequestWithinSize(w, request, peerReachable);
    case EnqueuePart(_) =>
    case EnqueueState(_) =>
    case EnqueueProgress(_) =>
    case _ => UserStepsWithinSize(w, event);
  }

  /** While the sizes are fixed, no recorded progress ever exceeds its size. */
  lemma {:induction false} ProgressStaysWithinSize(w: World, events: seq<Event>)
    requires AllWithinSize(w.records)
    requires forall k | 0 <= k < |events| :: SizesFixed(Run(w, events[..k]), events[k])
    ensures AllWithinSize(Run(w, events).records)
  {
    if events != [] {
      var n := |events| - 1;
      forall k | 0 <= k < n ensures SizesFixed(Run(w, events[..n][..k]), events[..n][k]) {
        assert events[..n][..k] == events[..k];
      }
      ProgressStaysWithinSize(w, events[..n]);
      StepWithinSize(Run(w, events[..n]), events[n]);
    }
  }
}
