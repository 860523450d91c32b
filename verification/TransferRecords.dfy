/** Message records with transfer parts, and the updates that change one part of a record
    (`applyTransferPartUpdate` and its siblings in src/main/app_runtime.cpp). */
module TransferRecords {
  import opened Prelude
  import opened TransferStates

  datatype PartKind = Text | Emoji | Image | File | Folder

  datatype Part = Part(
    partId: string, kind: PartKind, transferId: Option<string>, state: Option<TransferState>, fileName: Option<string>,
    fileSize: Option<nat>, localPath: Option<string>, sha256: Option<string>, transferredSize: Option<nat>)

  datatype Record = Record(incoming: bool, parts: seq<Part>)

  /** Records by message id, one copy of each. */
  type Records = map<string, Record>

  datatype PartUpdate = PartUpdate(
    messageId: string, partId: string, transferId: string, state: TransferState, fileName: string, fileSize: nat,
    localPath: string, sha256: Option<string>)

  datatype StateUpdate = StateUpdate(messageId: string, partId: string, transferId: string, state: TransferState)

  datatype ProgressUpdate = ProgressUpdate(messageId: string, partId: string, transferId: string, transferredSize: nat)

  // ---- Finding the part ----

  predicate IsFilePart(part: Part) {
    part.kind.Image? || part.kind.File? || part.kind.Folder?
  }

  predicate Matches(part: Part, partId: string, transferId: string) {
    (part.partId == partId || part.transferId == Some(transferId)) && IsFilePart(part)
  }

  /** The first part an update may change, or the number of parts. */
  function FirstMatch(parts: seq<Part>, partId: string, transferId: string): (index: nat)
    ensures index <= |parts| && (index < |parts| ==> Matches(parts[index], partId, transferId))
    ensures forall k | 0 <= k < index :: !Matches(parts[k], partId, transferId)
  {
    if parts == [] || Matches(parts[0], partId, transferId) then 0 else 1 + FirstMatch(parts[1..], partId, transferId)
  }

  lemma {:induction false} FirstMatchIs(parts: seq<Part>, partId: string, transferId: string, index: nat)
    requires index <= |parts| && (index < |parts| ==> Matches(parts[index], partId, transferId))
    requires forall k | 0 <= k < index :: !Matches(parts[k], partId, transferId)
    ensures FirstMatch(parts, partId, transferId) == index
  {
  }

  predicate MayReplace(part: Part, state: TransferState) {
    part.state.None? || !ShouldIgnoreUpdate(part.state.value, state)
  }

  // ---- Progress ----

  function WithProgress(part: Part, size: nat): Part {
    part.(transferredSize := Some(if part.fileSize.Some? then Min(size, part.fileSize.value) else size))
  }

  function WithProgressForState(part: Part, state: TransferState): Part {
    match state
    case Pending => WithProgress(part, 0)
    case Offered => WithProgress(part, 0)
    case Transferring => if part.transferredSize.None? then WithProgress(part, 0) else part
    case Completed => if part.fileSize.Some? then WithProgress(part, part.fileSize.value) else part
    case _ => part
  }

  /** A failed transfer that starts again starts from zero. */
  function WithProgressForUpdate(part: Part, state: TransferState, previous: Option<TransferState>): Part {
    if previous == Some(Failed) && state.Transferring? then WithProgress(part, 0) else WithProgressForState(part, state)
  }

  // ---- The three updates; `None` means the function returned false ----

  function StateChanged(part: Part, state: TransferState): Part {
    WithProgressForUpdate(part.(state := Some(state)), state, part.state)
  }

  function PartChanged(part: Part, u: PartUpdate): Part {
    var sized := part.(transferId := Some(u.transferId), state := Some(u.state), fileName := Some(u.fileName),
                       fileSize := Some(u.fileSize), localPath := Some(u.localPath),
                       sha256 := if u.sha256.Some? then u.sha256 else part.sha256);
    WithProgressForUpdate(sized, u.state, part.state)
  }

  function ApplyPart(record: Record, u: PartUpdate): Option<Record> {
    var i := FirstMatch(record.parts, u.partId, u.transferId);
    if i == |record.parts| || !MayReplace(record.parts[i], u.state) then None
    else Some(record.(parts := record.parts[i := PartChanged(record.parts[i], u)]))
  }

  function ApplyState(record: Record, u: StateUpdate): Option<Record> {
    var i := FirstMatch(record.parts, u.partId, u.transferId);
    if i == |record.parts| || !MayReplace(record.parts[i], u.state) then None
    else Some(record.(parts := record.parts[i := StateChanged(record.parts[i], u.state)]))
  }

  function ApplyProgress(record: Record, u: ProgressUpdate): Option<Record> {
    var i := FirstMatch(record.parts, u.partId, u.transferId);
    if i == |record.parts| then None
    else Some(record.(parts := record.parts[i := WithProgress(record.parts[i], u.transferredSize)]))
  }

  method ApplyTransferPartUpdate(record: Record, u: PartUpdate) returns (updated: Option<Record>)
    ensures updated == ApplyPart(record, u)
  {
    for i := 0 to |record.parts|
      invariant forall k | 0 <= k < i :: !Matches(record.parts[k], u.partId, u.transferId)
    {
      var part := record.parts[i];
      if !(part.partId == u.partId || part.transferId == Some(u.transferId)) || !IsFilePart(part) { continue; }
      FirstMatchIs(record.parts, u.partId, u.transferId, i);
      if part.state.Some? && ShouldIgnoreUpdate(part.state.value, u.state) { return None; }
      var previousState := part.state;
      part := part.(transferId := Some(u.transferId));
      part := part.(state := Some(u.state));
      part := part.(fileName := Some(u.fileName));
      part := part.(fileSize := Some(u.fileSize));
      part := part.(localPath := Some(u.localPath));
      if u.sha256.Some? { part := part.(sha256 := u.sha256); }
      return Some(record.(parts := record.parts[i := WithProgressForUpdate(part, u.state, previousState)]));
    }
    FirstMatchIs(record.parts, u.partId, u.transferId, |record.parts|);
    return None;
  }

  method ApplyTransferPartStateUpdate(record: Record, u: StateUpdate) returns (updated: Option<Record>)
    ensures updated == ApplyState(record, u)
  {
    for i := 0 to |record.parts|
      invariant forall k | 0 <= k < i :: !Matches(record.parts[k], u.partId, u.transferId)
    {
      var part := record.parts[i];
      if !(part.partId == u.partId || part.transferId == Some(u.transferId)) || !IsFilePart(part) { continue; }
      FirstMatchIs(record.parts, u.partId, u.transferId, i);
      if part.state.Some? && ShouldIgnoreUpdate(part.state.value, u.state) { return None; }
      var previousState := part.state;
      part := part.(state := Some(u.state));
      return Some(record.(parts := record.parts[i := WithProgressForUpdate(part, u.state, previousState)]));
    }
    FirstMatchIs(record.parts, u.partId, u.transferId, |record.parts|);
    return None;
  }

  method ApplyTransferPartProgressUpdate(record: Record, u: ProgressUpdate) returns (updated: Option<Record>)
    ensures updated == ApplyProgress(record, u)
  {
    for i := 0 to |record.parts|
      invariant forall k | 0 <= k < i :: !Matches(record.parts[k], u.partId, u.transferId)
    {
      var part := record.parts[i];
      if !(part.partId == u.partId || part.transferId == Some(u.transferId)) || !IsFilePart(part) { continue; }
      FirstMatchIs(record.parts, u.partId, u.transferId, i);
      return Some(record.(parts := record.parts[i := WithProgress(part, u.transferredSize)]));
    }
    FirstMatchIs(record.parts, u.partId, u.transferId, |record.parts|);
    return None;
  }

  // ---- Recovery after a restart ----

  function Recovered(part: Part, active: set<string>): Part {
    if IsFilePart(part) && part.state == Some(Transferring) && !(part.transferId.Some? && part.transferId.value in active)
    then part.(state := Some(Interrupted)) else part
  }

  method RecoverInterruptedTransferParts(record: Record, active: set<string>) returns (record': Record, recovered: bool)
    ensures record'.incoming == record.incoming && |record'.parts| == |record.parts|
    ensures forall k | 0 <= k < |record.parts| :: record'.parts[k] == Recovered(record.parts[k], active)
    ensures recovered <==> record' != record
  {
    var parts := record.parts;
    recovered := false;
    for i := 0 to |parts|
      invariant |parts| == |record.parts|
      invariant forall k | 0 <= k < i :: parts[k] == Recovered(record.parts[k], active)
      invariant forall k | i <= k < |parts| :: parts[k] == record.parts[k]
      invariant recovered <==> exists k | 0 <= k < i :: parts[k] != record.parts[k]
    {
      var part := parts[i];
      if !IsFilePart(part) || part.state != Some(Transferring) { continue; }
      if part.transferId.Some? && part.transferId.value in active { continue; }
      part := part.(state := Some(Interrupted));
      parts := parts[i := WithProgressForState(part, Interrupted)];
      recovered := true;
    }
    record' := if recovered then record.(parts := parts) else record;
    assert !recovered ==> parts == record.parts;
  }

  // ---- Sendable parts ----

  /** The first matching part that has a state decides whether a request may be sent. */
  function HasSendableState(parts: seq<Part>, partId: string, transferId: string): bool {
    if parts == [] then false
    else if !Matches(parts[0], partId, transferId) || parts[0].state.None? then HasSendableState(parts[1..], partId, transferId)
    else
      var state := parts[0].state.value;
      state.Offered? || state.Transferring? || state.Interrupted? || state.Failed?
  }

  // ---- What an update gives ----

  /** `record'` is `record` with another part at `i`. */
  predicate OnlyPartChanged(record: Record, record': Record, i: nat) {
    && record'.incoming == record.incoming && |record'.parts| == |record.parts| && i < |record.parts|
    && forall k | 0 <= k < |record.parts| && k != i :: record'.parts[k] == record.parts[k]
  }

  /** An image, a file or a folder with one of the two ids. */
  predicate IsMeant(part: Part, partId: string, transferId: string) {
    part.kind in {Image, File, Folder} && (part.partId == partId || part.transferId == Some(transferId))
  }

  /** The first part that is meant, if there is one. */
  ghost predicate IsFirstMatch(parts: seq<Part>, partId: string, transferId: string, i: nat) {
    i < |parts| && IsMeant(parts[i], partId, transferId) && forall k | 0 <= k < i :: !IsMeant(parts[k], partId, transferId)
  }

  /** The progress that a new state brings: a completed part of known size has all of it, a waiting part and one
      that starts, or starts again after a failure, have none, and any other keeps what it had. */
  function ProgressAfter(before: Option<nat>, previous: Option<TransferState>, state: TransferState, size: Option<nat>)
    : Option<nat>
  {
    if state.Completed? && size.Some? then size
    else if state.Pending? || state.Offered? || (state.Transferring? && (before.None? || previous == Some(Failed))) then Some(0)
    else before
  }

  /** A state update is applied exactly if a file part matches and its state may be replaced; then that part has
      the new state and the progress of it, and nothing else changes. */
  lemma {:induction false} StateUpdateGives(record: Record, u: StateUpdate, i: nat)
    requires IsFirstMatch(record.parts, u.partId, u.transferId, i)
    ensures var part, after := record.parts[i], ApplyState(record, u);
            && (after.Some? <==> part.state.None? || Updated(part.state.value, u.state) == u.state)
            && (after.Some? ==>
                  && OnlyPartChanged(record, after.value, i)
                  && after.value.parts[i] == part.(
                       state := Some(u.state),
                       transferredSize := ProgressAfter(part.transferredSize, part.state, u.state, part.fileSize)))
  {
    FirstMatchIs(record.parts, u.partId, u.transferId, i);
  }

  /** What a part has of an update that was applied to it. */
  predicate CarriesUpdate(part: Part, part': Part, u: PartUpdate) {
    && part'.state == Some(u.state) && part'.fileSize == Some(u.fileSize)
    && part'.fileName == Some(u.fileName) && part'.localPath == Some(u.localPath)
    && part'.transferId == Some(u.transferId) && part'.partId == part.partId && part'.kind == part.kind
    && (part'.sha256 == if u.sha256.Some? then u.sha256 else part.sha256)
    && part'.transferredSize == ProgressAfter(part.transferredSize, part.state, u.state, Some(u.fileSize))
  }

  lemma {:induction false} ChangedCarriesUpdate(part: Part, u: PartUpdate)
    ensures CarriesUpdate(part, PartChanged(part, u), u)
  {
  }

  /** A part update also brings its name, size, path, id and, if it has one, its hash. */
  lemma {:induction false} PartUpdateGives(record: Record, u: PartUpdate, i: nat)
    requires IsFirstMatch(record.parts, u.partId, u.transferId, i)
    ensures var part, after := record.parts[i], ApplyPart(record, u);
            && (after.Some? <==> part.state.None? || Updated(part.state.value, u.state) == u.state)
            && (after.Some? ==> OnlyPartChanged(record, after.value, i) && CarriesUpdate(part, after.value.parts[i], u))
  {
    FirstMatchIs(record.parts, u.partId, u.transferId, i);
    ChangedCarriesUpdate(record.parts[i], u);
  }

  /** A progress update is applied whatever the state; progress beyond a known size is cut. */
  lemma {:induction false} ProgressUpdateGives(record: Record, u: ProgressUpdate, i: nat)
    requires IsFirstMatch(record.parts, u.partId, u.transferId, i)
    ensures var part, after := record.parts[i], ApplyProgress(record, u);
            && after.Some? && OnlyPartChanged(record, after.value, i)
            && after.value.parts[i] == part.(transferredSize := after.value.parts[i].transferredSize)
            && after.value.parts[i].transferredSize.Some?
            && (part.fileSize.None? || u.transferredSize <= part.fileSize.value ==>
                  after.value.parts[i].transferredSize == Some(u.transferredSize))
            && (part.fileSize.Some? && u.transferredSize > part.fileSize.value ==>
                  after.value.parts[i].transferredSize == part.fileSize)
  {
    FirstMatchIs(record.parts, u.partId, u.transferId, i);
  }

  /** Without a file part that matches, every update is refused. */
  lemma {:induction false} NoMatchRefuses(record: Record, partId: string, transferId: string)
    requires forall i :: !IsFirstMatch(record.parts, partId, transferId, i)
    ensures forall u: StateUpdate | u.partId == partId && u.transferId == transferId :: ApplyState(record, u).None?
    ensures forall u: PartUpdate | u.partId == partId && u.transferId == transferId :: ApplyPart(record, u).None?
    ensures forall u: ProgressUpdate | u.partId == partId && u.transferId == transferId :: ApplyProgress(record, u).None?
  {
    var i := FirstMatch(record.parts, partId, transferId);
    assert !IsFirstMatch(record.parts, partId, transferId, i);
  }

  // ---- Recovery and sendable parts ----

  /** A part is waiting for nobody: a file part in transfer whose transfer is not running. */
  predicate IsStranded(part: Part, active: set<string>) {
    && part.kind in {Image, File, Folder} && part.state == Some(Transferring)
    && (part.transferId.None? || part.transferId.value !in active)
  }

  /** Recovery leaves no part stranded: exactly those that were can be resumed, with the progress they had. */
  lemma {:induction false} RecoveryResumesStranded(part: Part, active: set<string>)
    ensures var part' := Recovered(part, active);
            && !IsStranded(part', active) && part' == part.(state := part'.state)
            && (IsStranded(part, active) ==> part'.state == Some(Interrupted))
            && (!IsStranded(part, active) ==> part' == part)
  {
  }

  /** The first matching file part that has a state. */
  ghost predicate IsFirstStateful(parts: seq<Part>, partId: string, transferId: string, j: nat) {
    && j < |parts| && IsMeant(parts[j], partId, transferId) && parts[j].state.Some?
    && forall k | 0 <= k < j && IsMeant(parts[k], partId, transferId) :: parts[k].state.None?
  }

  ghost predicate IsSendableAt(parts: seq<Part>, partId: string, transferId: string, j: nat) {
    IsFirstStateful(parts, partId, transferId, j) && parts[j].state.value in {Offered, Transferring, Interrupted, Failed}
  }

  lemma {:induction false} StatefulBehind(parts: seq<Part>, partId: string, transferId: string, j: nat)
    requires parts != [] && !(Matches(parts[0], partId, transferId) && parts[0].state.Some?)
    ensures !IsSendableAt(parts, partId, transferId, 0)
    ensures IsSendableAt(parts, partId, transferId, j + 1) <==> IsSendableAt(parts[1..], partId, transferId, j)
  {
  }

  /** A request may be sent exactly if the first matching part with a state can go on: it was offered, runs, was
      interrupted or failed. */
  lemma {:induction false} HasSendableStateIff(parts: seq<Part>, partId: string, transferId: string)
    ensures HasSendableState(parts, partId, transferId) <==> exists j: nat :: IsSendableAt(parts, partId, transferId, j)
    decreases parts
  {
    if parts != [] {
      HasSendableStateIff(parts[1..], partId, transferId);
      if Matches(parts[0], partId, transferId) && parts[0].state.Some? {
        FirstDecides(parts, partId, transferId);
      } else if j: nat :| IsSendableAt(parts, partId, transferId, j) {
        StatefulBehind(parts, partId, transferId, if j == 0 then 0 else j - 1);
      } else if j: nat :| IsSendableAt(parts[1..], partId, transferId, j) {
        StatefulBehind(parts, partId, transferId, j);
      }
    }
  }

  lemma {:induction false} FirstDecides(parts: seq<Part>, partId: string, transferId: string)
    requires parts != [] && Matches(parts[0], partId, transferId) && parts[0].state.Some?
    ensures (exists j: nat :: IsSendableAt(parts, partId, transferId, j))
       <==> parts[0].state.value in {Offered, Transferring, Interrupted, Failed}
  {
    assert IsFirstStateful(parts, partId, transferId, 0);
    if j: nat :| IsSendableAt(parts, partId, transferId, j) {
      assert j == 0;
    }
    assert IsSendableAt(parts, partId, transferId, 0) <==> parts[0].state.value in {Offered, Transferring, Interrupted, Failed};
  }

  // ---- What the updates keep ----

  /** The states no update replaces by another. */
  predicate IsFinal(state: TransferState) {
    state.Completed? || state.Cancelled? || state.Rejected?
  }

  lemma {:induction false} FinalStatesRefuseOthers(state: TransferState, next: TransferState)
    ensures IsFinal(state) <==> forall other: TransferState :: Updated(state, other) == state
  {
    assert Updated(Failed, Transferring) == Transferring && Updated(Interrupted, Transferring) == Transferring;
    if !IsTerminal(state) {
      assert Updated(state, Completed) == Completed;
    }
  }

  ghost predicate KeepsFinal(part: Part, part': Part) {
    part.state.Some? && IsFinal(part.state.value) ==> part'.state == part.state
  }

  /** The same parts in the same order, the final ones in the same state. */
  ghost predicate RecordKeepsFinal(record: Record, record': Record) {
    |record'.parts| == |record.parts| && forall i | 0 <= i < |record.parts| :: KeepsFinal(record.parts[i], record'.parts[i])
  }

  ghost predicate RecordsKeepFinal(records: Records, records': Records) {
    forall id :: id in records ==> id in records' && RecordKeepsFinal(records[id], records'[id])
  }

  predicate WithinSize(part: Part) {
    part.fileSize.Some? && part.transferredSize.Some? ==> part.transferredSize.value <= part.fileSize.value
  }

  /** Progress beyond the size is cut, and a state update alone keeps progress within the size. */
  lemma {:induction false} UpdatesKeepWithinSize(part: Part, size: nat, state: TransferState)
    ensures WithinSize(WithProgress(part, size))
    ensures WithinSize(part) ==> WithinSize(StateChanged(part, state))
  {
  }

  /** A whole part update keeps progress within the size exactly if the recorded progress fits the new
      size, or the update itself sets the progress. */
  lemma {:induction false} PartUpdateKeepsWithinSize(part: Part, u: PartUpdate)
    ensures WithinSize(PartChanged(part, u)) <==>
      || u.state.Pending? || u.state.Offered? || u.state.Completed? || (u.state.Transferring? && part.state == Some(Failed))
      || part.transferredSize.None? || part.transferredSize.value <= u.fileSize
  {
  }
}
