/** What the user's steps and the outgoing requests give on the records: which part changes, when, and to what. */
module TransferSteps {
  import opened Prelude
  import opened TransferStates
  import opened TransferRecords
  import opened TransferQueues

  /** The first part with this id. */
  ghost predicate IsFirstWithId(parts: seq<Part>, partId: string, i: nat) {
    i < |parts| && parts[i].partId == partId && forall k | 0 <= k < i :: parts[k].partId != partId
  }

  lemma {:induction false} IndexIsFirst(parts: seq<Part>, partId: string, i: nat)
    requires IsFirstWithId(parts, partId, i)
    ensures IndexOf(parts, partId) == i
  {
    if i > 0 {
      IndexIsFirst(parts[1..], partId, i - 1);
    }
  }

  lemma {:induction false} IndexOfNone(parts: seq<Part>, partId: string)
    requires forall i: nat :: !IsFirstWithId(parts, partId, i)
    ensures IndexOf(parts, partId) == |parts|
  {
    if parts != [] {
      assert !IsFirstWithId(parts, partId, 0);
      forall i: nat
        ensures !IsFirstWithId(parts[1..], partId, i)
      {
        assert !IsFirstWithId(parts, partId, i + 1);
      }
      IndexOfNone(parts[1..], partId);
    }
  }

  /** The records differ in one part of one record. */
  ghost predicate OnlyThisChanged(records: Records, records': Records, id: string, i: nat) {
    && id in records && id in records' && records' == records[id := records'[id]] && OnlyPartChanged(records[id], records'[id], i)
  }

  // ---- Queued updates ----

  /** The update names a record and a file part of it, the first that matches. */
  ghost predicate Hits(records: Records, id: string, partId: string, transferId: string, i: nat) {
    id in records && IsFirstMatch(records[id].parts, partId, transferId, i)
  }

  predicate MayBecome(part: Part, state: TransferState) {
    part.state.None? || Updated(part.state.value, state) == state
  }

  /** A queued state update is taken exactly if it hits a part whose state may be replaced, and gives that part its
      state and the progress of it; it is refused otherwise. */
  lemma {:induction false} QueuedStateGives(records: Records, u: StateUpdate, i: nat)
    requires Hits(records, u.messageId, u.partId, u.transferId, i)
    ensures var part, after := records[u.messageId].parts[i], OnState(records, u);
            && (after.Some? <==> MayBecome(part, u.state))
            && (after.Some? ==>
                  && OnlyThisChanged(records, after.value, u.messageId, i)
                  && after.value[u.messageId].parts[i] == part.(
                       state := Some(u.state),
                       transferredSize := ProgressAfter(part.transferredSize, part.state, u.state, part.fileSize)))
  {
    StateUpdateGives(records[u.messageId], u, i);
  }

  lemma {:induction false} QueuedPartGives(records: Records, u: PartUpdate, i: nat)
    requires Hits(records, u.messageId, u.partId, u.transferId, i)
    ensures var part, after := records[u.messageId].parts[i], OnPart(records, u);
            && (after.Some? <==> MayBecome(part, u.state))
            && (after.Some? ==>
                  && OnlyThisChanged(records, after.value, u.messageId, i)
                  && CarriesUpdate(part, after.value[u.messageId].parts[i], u))
  {
    PartUpdateGives(records[u.messageId], u, i);
  }

  lemma {:induction false} QueuedProgressGives(records: Records, u: ProgressUpdate, i: nat)
    requires Hits(records, u.messageId, u.partId, u.transferId, i)
    ensures var part, after := records[u.messageId].parts[i], OnProgress(records, u);
            && after.Some? && OnlyThisChanged(records, after.value, u.messageId, i)
            && after.value[u.messageId].parts[i] == part.(transferredSize := Some(
                 if part.fileSize.Some? then Min(u.transferredSize, part.fileSize.value) else u.transferredSize))
  {
    ProgressUpdateGives(records[u.messageId], u, i);
  }

  lemma {:induction false} NoHitIsRefused(records: Records, id: string, partId: string, transferId: string)
    requires forall i: nat :: !Hits(records, id, partId, transferId, i)
    ensures forall u: StateUpdate | u.messageId == id && u.partId == partId && u.transferId == transferId ::
              OnState(records, u).None?
    ensures forall u: PartUpdate | u.messageId == id && u.partId == partId && u.transferId == transferId ::
              OnPart(records, u).None?
    ensures forall u: ProgressUpdate | u.messageId == id && u.partId == partId && u.transferId == transferId ::
              OnProgress(records, u).None?
  {
    if id in records {
      forall i: nat ensures !IsFirstMatch(records[id].parts, partId, transferId, i) {
        assert !Hits(records, id, partId, transferId, i);
      }
      NoMatchRefuses(records[id], partId, transferId);
    }
  }

  // ---- The user's steps ----

  /** A file or folder that was invited, with its id and a state. */
  predicate IsInvited(part: Part, state: TransferState) {
    (part.kind.File? || part.kind.Folder?) && part.transferId.Some? && part.state == Some(state)
  }

  /** An invitation that came in is accepted exactly if it was offered or interrupted and has a name: it is then
      in transfer, from the accepted offset, and saved at the chosen path. */
  lemma {:induction false} AcceptGives(records: Records, id: string, partId: string, resumeOffset: nat, localPath: string, i: nat)
    requires id in records && IsFirstWithId(records[id].parts, partId, i)
    ensures var part, records' := records[id].parts[i], Accept(records, id, partId, resumeOffset, localPath);
            if records[id].incoming && part.fileName.Some? && (IsInvited(part, Offered) || IsInvited(part, Interrupted))
            then && OnlyThisChanged(records, records', id, i)
                 && records'[id].parts[i] == part.(
                      state := Some(Transferring), transferredSize := Some(resumeOffset), localPath := Some(localPath))
            else records' == records
  {
    IndexIsFirst(records[id].parts, partId, i);
  }

  /** Only an invitation that came in and was not answered is rejected. */
  lemma {:induction false} RejectGives(records: Records, id: string, partId: string, i: nat)
    requires id in records && IsFirstWithId(records[id].parts, partId, i)
    ensures var part, records' := records[id].parts[i], Reject(records, id, partId);
            if records[id].incoming && IsInvited(part, Offered)
            then OnlyThisChanged(records, records', id, i) && records'[id].parts[i] == part.(state := Some(Rejected))
            else records' == records
  {
    IndexIsFirst(records[id].parts, partId, i);
  }

  /** A running transfer is cancelled by either side, an invitation only by the side that sent it. */
  lemma {:induction false} CancelGives(records: Records, id: string, partId: string, i: nat)
    requires id in records && IsFirstWithId(records[id].parts, partId, i)
    ensures var part, records' := records[id].parts[i], Cancel(records, id, partId);
            if IsInvited(part, Transferring) || (!records[id].incoming && IsInvited(part, Offered))
            then OnlyThisChanged(records, records', id, i) && records'[id].parts[i] == part.(state := Some(Cancelled))
            else records' == records
  {
    IndexIsFirst(records[id].parts, partId, i);
  }

  /** Without the record or the part, the user's steps change nothing. */
  lemma {:induction false} NoPartNoStep(records: Records, id: string, partId: string, resumeOffset: nat, localPath: string)
    requires id in records ==> forall i: nat :: !IsFirstWithId(records[id].parts, partId, i)
    ensures Accept(records, id, partId, resumeOffset, localPath) == records
    ensures Reject(records, id, partId) == records && Cancel(records, id, partId) == records
  {
    if id in records { IndexOfNone(records[id].parts, partId); }
  }

  /** After recovery no part of the record is stranded; exactly those that were are interrupted. */
  lemma {:induction false} RecoverGives(records: Records, id: string, active: set<string>, i: nat)
    requires id in records && i < |records[id].parts|
    ensures var part, records' := records[id].parts[i], Recover(records, id, active);
            && id in records' && records' == records[id := records'[id]] && |records'[id].parts| == |records[id].parts|
            && records'[id].incoming == records[id].incoming && !IsStranded(records'[id].parts[i], active)
            && records'[id].parts[i] == if IsStranded(part, active) then part.(state := Some(Interrupted)) else part
  {
    RecoveryResumesStranded(records[id].parts[i], active);
  }

  // ---- Outgoing requests ----

  /** A request that cannot be sent because the peer or the outgoing message is missing. */
  predicate HasNoReceiver(w: World, request: OutgoingRequest, peerReachable: bool) {
    !peerReachable || request.messageId !in w.records || w.records[request.messageId].incoming
  }

  lemma {:induction false} SendableMatches(parts: seq<Part>, partId: string, transferId: string, j: nat)
    requires IsSendableAt(parts, partId, transferId, j)
    ensures var i := FirstMatch(parts, partId, transferId);
            && i <= j && IsFirstMatch(parts, partId, transferId, i)
            && (parts[i].state.None? || Updated(parts[i].state.value, Transferring) == Transferring)
  {
    var i := FirstMatch(parts, partId, transferId);
    if i < j { assert parts[i].state.None?; }
  }

  /** The progress a part starts with: the offset the receiver named, cut at a known size, or what a start gives. */
  function ProgressAtStart(part: Part, resumeOffset: nat): Option<nat> {
    if resumeOffset == 0 then ProgressAfter(part.transferredSize, part.state, Transferring, part.fileSize)
    else if part.fileSize.Some? && part.fileSize.value < resumeOffset then part.fileSize
    else Some(resumeOffset)
  }

  /** A request moves the first matching part to Transferring, with the progress the receiver named, exactly if
      it has a receiver and its part can go on; without a receiver the part is reported as failed. */
  lemma {:induction false} SendRequestGives(w: World, request: OutgoingRequest, peerReachable: bool)
    ensures var w' := SendRequest(w, request, peerReachable);
            var OutgoingRequest(id, partId, transferId, resumeOffset) := request;
            if HasNoReceiver(w, request, peerReachable) then
              w' == w.(stateQueue := w.stateQueue + [StateUpdate(id, partId, transferId, Failed)])
            else if forall j: nat :: !IsSendableAt(w.records[id].parts, partId, transferId, j) then w' == w
            else
              var i := FirstMatch(w.records[id].parts, partId, transferId);
              && IsFirstMatch(w.records[id].parts, partId, transferId, i)
              && w' == w.(records := w'.records) && OnlyThisChanged(w.records, w'.records, id, i)
              && w'.records[id].parts[i] == w.records[id].parts[i].(
                   state := Some(Transferring), transferredSize := ProgressAtStart(w.records[id].parts[i], resumeOffset))
  {
    var OutgoingRequest(id, partId, transferId, resumeOffset) := request;
    if !HasNoReceiver(w, request, peerReachable) {
      HasSendableStateIff(w.records[id].parts, partId, transferId);
      if j: nat :| IsSendableAt(w.records[id].parts, partId, transferId, j) {
        SendableMatches(w.records[id].parts, partId, transferId, j);
        SendingGives(w, request, FirstMatch(w.records[id].parts, partId, transferId));
      }
    }
  }

  lemma {:induction false} SendingGives(w: World, request: OutgoingRequest, i: nat)
    requires var OutgoingRequest(id, partId, transferId, resumeOffset) := request;
             && !HasNoReceiver(w, request, true) && HasSendableState(w.records[id].parts, partId, transferId)
             && IsFirstMatch(w.records[id].parts, partId, transferId, i)
             && (w.records[id].parts[i].state.None? || Updated(w.records[id].parts[i].state.value, Transferring) == Transferring)
    ensures var w', id := SendRequest(w, request, true), request.messageId;
            && w' == w.(records := w'.records) && OnlyThisChanged(w.records, w'.records, id, i)
            && w'.records[id].parts[i] == w.records[id].parts[i].(
                 state := Some(Transferring), transferredSize := ProgressAtStart(w.records[id].parts[i], request.resumeOffset))
  {
    var OutgoingRequest(id, partId, transferId, resumeOffset) := request;
    var record := w.records[id];
    StateUpdateGives(record, StateUpdate(id, partId, transferId, Transferring), i);
    var sending := ApplyState(record, StateUpdate(id, partId, transferId, Transferring)).value;
    forall k | 0 <= k < |record.parts|
      ensures Matches(sending.parts[k], partId, transferId) <==> Matches(record.parts[k], partId, transferId)
    {
    }
    ProgressUpdateGives(sending, ProgressUpdate(id, partId, transferId, resumeOffset), i);
  }
}
