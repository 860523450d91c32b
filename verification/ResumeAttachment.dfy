/** What a session does to a folder from the step that attaches it on, and exactly when the folder it completes
    is whole. */
module ResumeAttachment {
  import opened Prelude
  import opened TransferSource
  import opened TransferProducer
  import opened TransferReceiver
  import opened TransferProgress
  import opened ResumeProtocol
  import opened ResumeSessions

  // ---- Steps of an attached session ----

  lemma {:induction false} CountsExtended(entries: seq<FolderEntry>, tree: Tree, tree': Tree, c: Cursor, c': Cursor)
      returns (i: nat, from: nat, to: nat)
    requires TreeExtended(entries, tree, tree', c, c')
    ensures Carries(entries, c, c', i, from, to) && CountsOf(entries, tree') == CountsOf(entries, tree)[i := to]
  {
    i, from, to :| Carries(entries, c, c', i, from, to) && IsWritten(entries, tree, i, from, to, (tree', true));
  }

  /** A session that stays attached without a delivery stays where it is. */
  lemma {:induction false} StaysAttached(source: Source, resolve: Resolver, s: Protocol, event: Event)
    requires source.WellFormed() && source.FolderSource? && Invariant(source, s) && !event.Deliver?
    requires Attached(source, s) && Attached(source, Step(source, resolve, s, event))
    ensures Step(source, resolve, s, event).stream == s.stream
    ensures TreeOf(Step(source, resolve, s, event).target) == TreeOf(s.target)
  {
    match event
    case AcceptInvitation => if CanAccept(s) { AcceptHandled(source, s); }
    case ResumeRequest => ResumeRequestHandled(source, s);
    case _ =>
  }

  /** A session that stays attached over a delivery has had a chunk taken. */
  lemma {:induction false} StaysAttachedByChunk(source: Source, resolve: Resolver, s: Protocol, want: nat)
      returns (c': Cursor, target': Target)
    requires source.WellFormed() && Understands(resolve, source) && Invariant(source, s) && want > 0
    requires Attached(source, s) && Attached(source, OnDeliver(source, resolve, s, want))
    ensures OnDeliver(source, resolve, s, want) == Counted(s, c', target')
    ensures Extended(source, s.target, target', s.stream.value, c')
  {
    var frame: TransferFrame;
    c', frame := FrameSent(source, s.stream.value, want);
    if frame.Chunk? {
      target' := ChunkTaken(source, resolve, s, c', frame);
    } else {
      CompleteHandled(source, s, c', frame);
      assert false;
    }
  }

  // ---- From its attachment on ----

  /** What a session attached at `start` has done by `now`: entries before its place are as they were, those
      it has passed are whole. */
  ghost predicate AttachedSince(source: Source, start: Protocol, now: Protocol)
    requires source.FolderSource?
  {
    && Attached(source, start) && Attached(source, now)
    && Passed(source.entries, OnDisk(source, start.target), OnDisk(source, now.target),
              NextEntry(source, start.stream.value), NextEntry(source, now.stream.value))
  }

  ghost predicate Passed(entries: seq<FolderEntry>, before: seq<nat>, after: seq<nat>, first: nat, next: nat) {
    && |before| == |after| == |entries| && first <= next
    && forall j {:trigger after[j]} | 0 <= j < |entries| && j < next ::
         after[j] == if j < first then before[j] else entries[j].Size()
  }

  lemma {:induction false} PassesOn(entries: seq<FolderEntry>, before: seq<nat>, after: seq<nat>, first: nat, c: Cursor, c': Cursor,
        i: nat, from: nat, to: nat)
    requires Carries(entries, c, c', i, from, to) && Passed(entries, before, after, first, i)
    ensures Passed(entries, before, after[i := to], first, NextEntry(FolderSource(entries), c'))
  {}

  lemma {:induction false} AttachedStep(source: Source, resolve: Resolver, start: Protocol, s: Protocol, event: Event)
    requires source.WellFormed() && Understands(resolve, source) && source.FolderSource? && Invariant(source, s)
    requires AttachedSince(source, start, s) && Attached(source, Step(source, resolve, s, event))
    ensures AttachedSince(source, start, Step(source, resolve, s, event))
  {
    if event.Deliver? {
      if event.want > 0 {
        var c', target' := StaysAttachedByChunk(source, resolve, s, event.want);
        var i, from, to := CountsExtended(source.entries, s.target.tree, target'.tree, s.stream.value, c');
        PassesOn(source.entries, OnDisk(source, start.target), OnDisk(source, s.target), NextEntry(source, start.stream.value),
                 s.stream.value, c', i, from, to);
      }
    } else {
      StaysAttached(source, resolve, s, event);
    }
  }

  /** Only the complete frame of an attached session completes a payload, once every entry is passed. */
  lemma {:induction false} CompletesAttached(source: Source, resolve: Resolver, s: Protocol, event: Event)
    requires source.WellFormed() && Understands(resolve, source) && source.FolderSource? && Invariant(source, s)
    requires Step(source, resolve, s, event).completed != s.completed
    ensures Attached(source, s) && NextEntry(source, s.stream.value) == |source.entries|
    ensures Step(source, resolve, s, event).completed == s.completed + [s.target]
  {
    if event.Deliver? {
      DeliverCompletes(source, resolve, s, event.want);
    } else {
      NothingCompleted(source, resolve, s, event);
      assert false;
    }
  }

  lemma {:induction false} NothingCompleted(source: Source, resolve: Resolver, s: Protocol, event: Event)
    requires source.WellFormed() && Invariant(source, s) && !event.Deliver?
    ensures Step(source, resolve, s, event).completed == s.completed
  {
    match event
    case AcceptInvitation => if CanAccept(s) { AcceptHandled(source, s); }
    case ResumeRequest => ResumeRequestHandled(source, s);
    case StartSending(k) => if k < |s.accepts| { StartHandled(source, s.(accepts := Without(s.accepts, k)), s.accepts[k]); }
    case SenderSends => StartHandled(source, s, 0);
    case Cut => CloseHandled(source, s);
    case _ =>
  }

  lemma {:induction false} DeliverCompletes(source: Source, resolve: Resolver, s: Protocol, want: nat)
    requires source.WellFormed() && Understands(resolve, source) && source.FolderSource? && Invariant(source, s)
    requires Step(source, resolve, s, Deliver(want)).completed != s.completed
    ensures Attached(source, s) && NextEntry(source, s.stream.value) == |source.entries|
    ensures Step(source, resolve, s, Deliver(want)).completed == s.completed + [s.target]
  {
    if !s.stream.value.offerSent {
      var target' := OfferDelivered(source, resolve, s, want);
    } else if !s.stream.value.completeSent {
      var c', frame := FrameSent(source, s.stream.value, want);
      if !frame.Chunk? && s.pending.Some? { CompleteHandled(source, s, c', frame); }
    }
  }

  // ---- Over a run ----

  /** The state after the first `k` events. */
  ghost function StateAt(source: Source, resolve: Resolver, invitedSize: Option<nat>, events: seq<Event>, k: nat): Protocol
    requires k <= |events|
  {
    Run(source, resolve, Initial(invitedSize), events[..k])
  }

  lemma {:induction false} StateAfter(source: Source, resolve: Resolver, invitedSize: Option<nat>, events: seq<Event>, k: nat)
    requires k < |events|
    ensures StateAt(source, resolve, invitedSize, events, k + 1)
         == Step(source, resolve, StateAt(source, resolve, invitedSize, events, k), events[k])
  {
    assert events[..k + 1][..k] == events[..k];
  }

  ghost predicate IsAttachedAt(source: Source, resolve: Resolver, invitedSize: Option<nat>, events: seq<Event>, k: nat) {
    k <= |events| && Attached(source, StateAt(source, resolve, invitedSize, events, k))
  }

  /** Attached by step `m` and from then on up to step `n`. */
  ghost predicate AttachedFrom(source: Source, resolve: Resolver, invitedSize: Option<nat>, events: seq<Event>, m: nat, n: nat) {
    && 0 < m <= n && !IsAttachedAt(source, resolve, invitedSize, events, m - 1)
    && forall k | m <= k <= n :: IsAttachedAt(source, resolve, invitedSize, events, k)
  }

  lemma {:induction false} NotAttachedAtFirst(source: Source, resolve: Resolver, invitedSize: Option<nat>, events: seq<Event>)
    ensures !IsAttachedAt(source, resolve, invitedSize, events, 0)
  {}

  lemma {:induction false} AttachedOneMore(source: Source, resolve: Resolver, invitedSize: Option<nat>, events: seq<Event>, n: nat,
        start: Protocol)
    requires source.WellFormed() && Understands(resolve, source) && source.FolderSource? && n < |events|
    requires AttachedSince(source, start, StateAt(source, resolve, invitedSize, events, n))
    requires IsAttachedAt(source, resolve, invitedSize, events, n + 1)
    ensures AttachedSince(source, start, StateAt(source, resolve, invitedSize, events, n + 1))
  {
    StateAfter(source, resolve, invitedSize, events, n);
    RunKeepsInvariant(source, resolve, invitedSize, events[..n]);
    AttachedStep(source, resolve, start, StateAt(source, resolve, invitedSize, events, n), events[n]);
  }

  lemma {:induction false} LastAttachment(source: Source, resolve: Resolver, invitedSize: Option<nat>, events: seq<Event>, n: nat)
      returns (m: nat)
    requires IsAttachedAt(source, resolve, invitedSize, events, n)
    ensures AttachedFrom(source, resolve, invitedSize, events, m, n)
  {
    NotAttachedAtFirst(source, resolve, invitedSize, events);
    m := n;
    if IsAttachedAt(source, resolve, invitedSize, events, n - 1) {
      m := LastAttachment(source, resolve, invitedSize, events, n - 1);
    }
  }

  lemma {:induction false} SinceItself(source: Source, s: Protocol)
    requires source.FolderSource? && Attached(source, s)
    ensures AttachedSince(source, s, s)
  {}

  lemma {:induction false} SinceLastAttachment(source: Source, resolve: Resolver, invitedSize: Option<nat>, events: seq<Event>,
        m: nat, n: nat)
    requires source.WellFormed() && Understands(resolve, source) && source.FolderSource? && m <= n <= |events|
    requires forall k | m <= k <= n :: IsAttachedAt(source, resolve, invitedSize, events, k)
    ensures AttachedSince(source, StateAt(source, resolve, invitedSize, events, m), StateAt(source, resolve, invitedSize, events, n))
    decreases n
  {
    assert IsAttachedAt(source, resolve, invitedSize, events, n);
    if m == n {
      SinceItself(source, StateAt(source, resolve, invitedSize, events, n));
    } else {
      SinceLastAttachment(source, resolve, invitedSize, events, m, n - 1);
      AttachedOneMore(source, resolve, invitedSize, events, n - 1, StateAt(source, resolve, invitedSize, events, m));
    }
  }

  lemma {:induction false} PassedAllIff(source: Source, start: Protocol, s: Protocol)
    requires source.WellFormed() && source.FolderSource? && Invariant(source, s) && AttachedSince(source, start, s)
    requires NextEntry(source, s.stream.value) == |source.entries|
    ensures HoldsWhole(source, s.target)
       <==> AllWhole(source.entries, OnDisk(source, start.target), NextEntry(source, start.stream.value))
  {
    WholeIffAllWhole(source, s.target);
    var entries, before, after := source.entries, OnDisk(source, start.target), OnDisk(source, s.target);
    if AllWhole(entries, after, |entries|) {
      forall j | 0 <= j < NextEntry(source, start.stream.value)
        ensures before[j] == entries[j].Size()
      {
        assert after[j] == entries[j].Size();
      }
    }
  }

  /** On every run, without any condition on cuts: whenever a folder is completed, its session was attached at
      some step `m` and stayed so, and the folder is whole if and only if the entries before the place of the
      session were whole at that step. */
  lemma {:induction false} CompletedIsWholeIff(source: Source, resolve: Resolver, invitedSize: Option<nat>, events: seq<Event>, n: nat)
      returns (m: nat)
    requires source.WellFormed() && Understands(resolve, source) && source.FolderSource? && n < |events|
    requires StateAt(source, resolve, invitedSize, events, n + 1).completed != StateAt(source, resolve, invitedSize, events, n).completed
    ensures AttachedFrom(source, resolve, invitedSize, events, m, n)
    ensures IsAttachedAt(source, resolve, invitedSize, events, m)
    ensures var s, start := StateAt(source, resolve, invitedSize, events, n), StateAt(source, resolve, invitedSize, events, m);
            && NextEntry(source, start.stream.value) <= |source.entries|
            && StateAt(source, resolve, invitedSize, events, n + 1).completed == s.completed + [s.target]
            && (HoldsWhole(source, s.target)
                <==> AllWhole(source.entries, OnDisk(source, start.target), NextEntry(source, start.stream.value)))
  {
    RunKeepsInvariant(source, resolve, invitedSize, events[..n]);
    StateAfter(source, resolve, invitedSize, events, n);
    CompletesAttached(source, resolve, StateAt(source, resolve, invitedSize, events, n), events[n]);
    m := LastAttachment(source, resolve, invitedSize, events, n);
    SinceLastAttachment(source, resolve, invitedSize, events, m, n);
    PassedAllIff(source, StateAt(source, resolve, invitedSize, events, m), StateAt(source, resolve, invitedSize, events, n));
  }
}
