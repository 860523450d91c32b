/** The states of one transfer part and which update may replace which
    (`isTerminalTransferState`, `shouldIgnoreTransferStateUpdate` in src/main/app_runtime.cpp). */
module TransferStates {

  datatype TransferState =
    | Pending | Offered | Transferring | Completed | Interrupted | Failed | Cancelled | Rejected

  predicate IsTerminal(state: TransferState) {
    state.Completed? || state.Interrupted? || state.Failed? || state.Cancelled? || state.Rejected?
  }

  predicate ShouldIgnoreUpdate(current: TransferState, next: TransferState) {
    var failedCanBeReplaced :=
      current.Failed? && (next.Rejected? || next.Cancelled? || next.Transferring? || next.Completed?);
    var interruptedCanBeReplaced :=
      current.Interrupted? && (next.Transferring? || next.Completed? || next.Failed? || next.Cancelled? || next.Rejected?);
    current != next && IsTerminal(current) && !failedCanBeReplaced && !interruptedCanBeReplaced
  }

  function Updated(current: TransferState, next: TransferState): TransferState {
    if ShouldIgnoreUpdate(current, next) then current else next
  }

  /** What may follow a state: a part that was completed, cancelled or rejected stays so; a failed one may be sent
      again, completed after all, cancelled or rejected; an interrupted one may also fail; any other may become
      anything. */
  function Followers(state: TransferState): set<TransferState> {
    match state
    case Completed => {Completed}
    case Cancelled => {Cancelled}
    case Rejected => {Rejected}
    case Failed => {Failed, Transferring, Completed, Cancelled, Rejected}
    case Interrupted => {Interrupted, Transferring, Completed, Failed, Cancelled, Rejected}
    case _ => {Pending, Offered, Transferring, Completed, Interrupted, Failed, Cancelled, Rejected}
  }

  lemma {:induction false} FollowersIff(current: TransferState, next: TransferState)
    ensures Updated(current, next) == if next in Followers(current) then next else current
  {
  }
}
