/** What becomes of queued updates over whole runs: each waits until a drain takes it, once, and the records are
    those that the taken updates and the user's steps give when they are applied one after the other. */
module QueueRuns {
  import opened Prelude
  import opened TransferStates
  import opened TransferRecords
  import opened TransferQueues
  import opened TransferSteps

  // ---- One drain ----

  /** The updates that a drain takes, in order. */
  function Taken<U>(apply: Applier<U>, records: Records, updates: seq<U>): seq<U> {
    if updates == [] then []
    else
      var front, last := updates[..|updates| - 1], updates[|updates| - 1];
      Taken(apply, records, front) + if apply(Drain(apply, records, front).0, last).Some? then [last] else []
  }

  /** Applies updates one after the other; `None` if one is refused. */
  function AppliedInOrder<U>(apply: Applier<U>, records: Records, updates: seq<U>): Option<Records> {
    if updates == [] then Some(records)
    else
      var before := AppliedInOrder(apply, records, updates[..|updates| - 1]);
      if before.None? then None else apply(before.value, updates[|updates| - 1])
  }

  /** A drain is the taken updates applied one after the other. */
  lemma {:induction false} DrainAppliesTaken<U>(apply: Applier<U>, records: Records, updates: seq<U>)
    ensures AppliedInOrder(apply, records, Taken(apply, records, updates)) == Some(Drain(apply, records, updates).0)
  {
    if updates != [] {
      var front, last := updates[..|updates| - 1], updates[|updates| - 1];
      DrainAppliesTaken(apply, records, front);
      var taken := Taken(apply, records, front);
      if apply(Drain(apply, records, front).0, last).Some? {
        assert (taken + [last])[..|taken|] == taken;
      } else {
        assert taken + [] == taken;
      }
    }
  }

  lemma {:induction false} OneMore<U>(updates: seq<U>, front: seq<U>, taken: seq<U>, left: seq<U>, last: U)
    requires updates == front + [last] && multiset(front) == multiset(taken) + multiset(left)
    ensures multiset(updates) == multiset(taken + [last]) + multiset(left)
    ensures multiset(updates) == multiset(taken) + multiset(left + [last])
  {
  }

  lemma {:induction false} LastIsTakenOrStays<U>(apply: Applier<U>, records: Records, updates: seq<U>)
    requires updates != []
    ensures var n := |updates| - 1;
      var last, left, taken := updates[n], Drain(apply, records, updates[..n]).1, Taken(apply, records, updates[..n]);
      || (Taken(apply, records, updates) == taken + [last] && Drain(apply, records, updates).1 == left)
      || (Taken(apply, records, updates) == taken && Drain(apply, records, updates).1 == left + [last])
  {
  }

  /** What it does not take stays. */
  lemma {:induction false} DrainKeepsRest<U>(apply: Applier<U>, records: Records, updates: seq<U>)
    ensures multiset(updates) == multiset(Taken(apply, records, updates)) + multiset(Drain(apply, records, updates).1)
  {
    if updates != [] {
      var front, last := updates[..|updates| - 1], updates[|updates| - 1];
      var left, taken := Drain(apply, records, front).1, Taken(apply, records, front);
      DrainKeepsRest(apply, records, front);
      LastIsTakenOrStays(apply, records, updates);
      OneMore(updates, front, taken, left, last);
    }
  }

  /** Two moves between what waits, what came and what is gone make one. */
  lemma {:induction false} MovesAddUp<U>(start: multiset<U>, came: multiset<U>, waits: multiset<U>, gone: multiset<U>,
        comes: multiset<U>, waits': multiset<U>, goes: multiset<U>)
    requires start + came == waits + gone && waits + comes == waits' + goes
    ensures start + (came + comes) == waits' + (gone + goes)
  {
    assert start + (came + comes) == (start + came) + comes;
    assert (waits + gone) + comes == (waits + comes) + gone;
    assert (waits' + goes) + gone == waits' + (gone + goes);
  }

  // ---- One step ----

  function PartsTaken(w: World, event: Event): seq<PartUpdate> {
    if event.DrainParts? then Taken(OnPart, w.records, w.partQueue) else []
  }

  function StatesTaken(w: World, event: Event): seq<StateUpdate> {
    if event.DrainStates? then Taken(OnState, w.records, w.stateQueue) else []
  }

  function ProgressTaken(w: World, event: Event): seq<ProgressUpdate> {
    if event.DrainProgress? then Taken(OnProgress, w.records, w.progressQueue) else []
  }

  function PartsAdded(event: Event): seq<PartUpdate> {
    if event.EnqueuePart? then [event.partUpdate] else []
  }

  /** A request without a receiver adds the failure of its part. */
  function StatesAdded(w: World, event: Event): seq<StateUpdate> {
    match event
    case EnqueueState(u) => [u]
    case SendRequested(request, peerReachable) =>
      if HasNoReceiver(w, request, peerReachable)
      then [StateUpdate(request.messageId, request.partId, request.transferId, Failed)] else []
    case _ => []
  }

  lemma {:induction false} StepOnParts(w: World, event: Event)
    ensures multiset(w.partQueue) + multiset(PartsAdded(event))
         == multiset(Step(w, event).partQueue) + multiset(PartsTaken(w, event))
  {
    if event.DrainParts? { DrainKeepsRest(OnPart, w.records, w.partQueue); }
    if event.SendRequested? { SendRequestGives(w, event.request, event.peerReachable); }
  }

  lemma {:induction false} StepOnStates(w: World, event: Event)
    ensures multiset(w.stateQueue) + multiset(StatesAdded(w, event))
         == multiset(Step(w, event).stateQueue) + multiset(StatesTaken(w, event))
  {
    if event.DrainStates? { DrainKeepsRest(OnState, w.records, w.stateQueue); }
    if event.SendRequested? { SendRequestGives(w, event.request, event.peerReachable); }
  }

  /** The first waiting update of the same target has the size of the new one; without one the new one waits. */
  ghost predicate WaitsFor(queue: seq<ProgressUpdate>, u: ProgressUpdate, queue': seq<ProgressUpdate>) {
    if forall k | 0 <= k < |queue| :: !SameTarget(queue[k], u) then queue' == queue + [u]
    else
      exists j :: 0 <= j < |queue| && SameTarget(queue[j], u) && (forall k | 0 <= k < j :: !SameTarget(queue[k], u))
               && queue' == queue[j := u]
  }

  lemma {:induction false} CoalescedWaits(queue: seq<ProgressUpdate>, u: ProgressUpdate)
    ensures WaitsFor(queue, u, Coalesced(queue, u))
  {
    if forall k | 0 <= k < |queue| :: !SameTarget(queue[k], u) {
      CoalescedIs(queue, u, |queue|);
    } else {
      var k: nat :| k < |queue| && SameTarget(queue[k], u);
      var j := FirstOfTarget(queue, u, k);
      CoalescedIs(queue, u, j);
    }
  }

  lemma {:induction false} FirstOfTarget(queue: seq<ProgressUpdate>, u: ProgressUpdate, k: nat) returns (j: nat)
    requires k < |queue| && SameTarget(queue[k], u)
    ensures j <= k && SameTarget(queue[j], u) && forall i | 0 <= i < j :: !SameTarget(queue[i], u)
  {
    j := k;
    if i: nat :| i < k && SameTarget(queue[i], u) {
      j := FirstOfTarget(queue, u, i);
    }
  }

  /** What waits of the progress: a drain keeps what it does not take, and a new update replaces the one that waits
      for the same target. */
  lemma {:induction false} StepOnProgress(w: World, event: Event)
    ensures var queue, queue' := w.progressQueue, Step(w, event).progressQueue;
      match event
      case DrainProgress => multiset(queue) == multiset(queue') + multiset(ProgressTaken(w, event))
      case EnqueueProgress(u) => WaitsFor(queue, u, queue')
      case _ => queue' == queue
  {
    match event
    case DrainProgress => DrainKeepsRest(OnProgress, w.records, w.progressQueue);
    case EnqueueProgress(u) => CoalescedWaits(w.progressQueue, u);
    case SendRequested(request, peerReachable) => SendRequestGives(w, request, peerReachable);
    case _ =>
  }

  /** The records change by the taken updates, applied one after the other, by the user's steps, by recovery, by
      requests and by new records; waiting changes nothing. */
  lemma {:induction false} StepOnRecords(w: World, event: Event)
    ensures var records, records' := w.records, Step(w, event).records;
      match event
      case DrainParts => AppliedInOrder(OnPart, records, PartsTaken(w, event)) == Some(records')
      case DrainStates => AppliedInOrder(OnState, records, StatesTaken(w, event)) == Some(records')
      case DrainProgress => AppliedInOrder(OnProgress, records, ProgressTaken(w, event)) == Some(records')
      case UserAccepts(id, partId, offset, path) => records' == Accept(records, id, partId, offset, path)
      case UserRejects(id, partId) => records' == Reject(records, id, partId)
      case UserCancels(id, partId) => records' == Cancel(records, id, partId)
      case Recovery(id, active) => records' == Recover(records, id, active)
      case NewRecord(id, record) =>
        && id in records' && records' - {id} == records - {id}
        && (if id in records then records' == records else records'[id] == record)
      case SendRequested(request, peerReachable) => records' == SendRequest(w, request, peerReachable).records
      case _ => records' == records
  {
    match event
    case DrainParts => DrainAppliesTaken(OnPart, w.records, w.partQueue);
    case DrainStates => DrainAppliesTaken(OnState, w.records, w.stateQueue);
    case DrainProgress => DrainAppliesTaken(OnProgress, w.records, w.progressQueue);
    case _ =>
  }

  // ---- Whole runs ----

  function AllPartsAdded(events: seq<Event>): seq<PartUpdate> {
    if events == [] then [] else AllPartsAdded(events[..|events| - 1]) + PartsAdded(events[|events| - 1])
  }

  function AllPartsTaken(w: World, events: seq<Event>): seq<PartUpdate> {
    if events == [] then []
    else AllPartsTaken(w, events[..|events| - 1]) + PartsTaken(Run(w, events[..|events| - 1]), events[|events| - 1])
  }

  function AllStatesAdded(w: World, events: seq<Event>): seq<StateUpdate> {
    if events == [] then []
    else AllStatesAdded(w, events[..|events| - 1]) + StatesAdded(Run(w, events[..|events| - 1]), events[|events| - 1])
  }

  function AllStatesTaken(w: World, events: seq<Event>): seq<StateUpdate> {
    if events == [] then []
    else AllStatesTaken(w, events[..|events| - 1]) + StatesTaken(Run(w, events[..|events| - 1]), events[|events| - 1])
  }

  /** Conservation on every run: the part updates that were queued are those taken and those still waiting, each as
      often as it was queued. */
  lemma {:induction false} PartsAreConserved(w: World, events: seq<Event>)
    ensures multiset(w.partQueue) + multiset(AllPartsAdded(events))
         == multiset(Run(w, events).partQueue) + multiset(AllPartsTaken(w, events))
  {
    if events != [] {
      var front, event := events[..|events| - 1], events[|events| - 1];
      var before := Run(w, front);
      PartsAreConserved(w, front);
      StepOnParts(before, event);
      MovesAddUp(multiset(w.partQueue), multiset(AllPartsAdded(front)), multiset(before.partQueue),
                 multiset(AllPartsTaken(w, front)), multiset(PartsAdded(event)), multiset(Step(before, event).partQueue), multiset(PartsTaken(before, event)));
    }
  }

  /** The same for state updates, which requests without a receiver add too. */
  lemma {:induction false} StatesAreConserved(w: World, events: seq<Event>)
    ensures multiset(w.stateQueue) + multiset(AllStatesAdded(w, events))
         == multiset(Run(w, events).stateQueue) + multiset(AllStatesTaken(w, events))
  {
    if events != [] {
      var front, event := events[..|events| - 1], events[|events| - 1];
      var before := Run(w, front);
      StatesAreConserved(w, front);
      StepOnStates(before, event);
      MovesAddUp(multiset(w.stateQueue), multiset(AllStatesAdded(w, front)), multiset(before.stateQueue),
                 multiset(AllStatesTaken(w, front)), multiset(StatesAdded(before, event)),
                 multiset(Step(before, event).stateQueue), multiset(StatesTaken(before, event)));
    }
  }
}
