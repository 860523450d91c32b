/** The coalescing progress queue against a plain one that keeps every update: after each drain the
    records are the same (src/main/app_runtime.cpp). */
module ProgressCoalescing {
  import opened Prelude
  import opened TransferRecords
  import opened TransferQueues

  /** What the coalescing queue holds after these updates have arrived. */
  function Compact(updates: seq<ProgressUpdate>): seq<ProgressUpdate> {
    if updates == [] then [] else Coalesced(Compact(updates[..|updates| - 1]), updates[|updates| - 1])
  }

  // ---- At most one entry per target ----

  ghost predicate DistinctTargets(queue: seq<ProgressUpdate>) {
    forall i, j | 0 <= i < j < |queue| :: !SameTarget(queue[i], queue[j])
  }

  /** Where the target of an update waits, or the length of the queue. */
  function Position(queue: seq<ProgressUpdate>, u: ProgressUpdate): (j: nat)
    ensures j <= |queue| && (j < |queue| ==> SameTarget(queue[j], u)) && forall k | 0 <= k < j :: !SameTarget(queue[k], u)
  {
    if queue == [] || SameTarget(queue[0], u) then 0 else 1 + Position(queue[1..], u)
  }

  lemma {:induction false} CoalescedKeepsDistinct(queue: seq<ProgressUpdate>, u: ProgressUpdate)
    requires DistinctTargets(queue)
    ensures DistinctTargets(Coalesced(queue, u))
  {
    CoalescedIs(queue, u, Position(queue, u));
  }

  lemma {:induction false} OneEntryPerTarget(updates: seq<ProgressUpdate>)
    ensures DistinctTargets(Compact(updates))
  {
    if updates != [] {
      OneEntryPerTarget(updates[..|updates| - 1]);
      CoalescedKeepsDistinct(Compact(updates[..|updates| - 1]), updates[|updates| - 1]);
    }
  }

  // ---- Progress updates on records ----

  /** The record and the index of the part that an update finds. */
  function Place(records: Records, u: ProgressUpdate): Option<nat> {
    if u.messageId !in records then None
    else
      var i := FirstMatch(records[u.messageId].parts, u.partId, u.transferId);
      if i == |records[u.messageId].parts| then None else Some(i)
  }

  /** Applied if a part is found, ignored otherwise. */
  function Applied(records: Records, u: ProgressUpdate): Records {
    var after := OnProgress(records, u);
    if after.Some? then after.value else records
  }

  function AllApplied(records: Records, updates: seq<ProgressUpdate>): Records {
    if updates == [] then records else AllApplied(Applied(records, updates[0]), updates[1..])
  }

  /** Parts alike in everything an update looks at. */
  predicate SameKeys(a: Part, b: Part) {
    a.partId == b.partId && a.transferId == b.transferId && a.kind == b.kind && a.fileSize == b.fileSize
  }

  ghost predicate SameShape(a: Records, b: Records) {
    && a.Keys == b.Keys
    && forall id :: id in a ==> |a[id].parts| == |b[id].parts| && forall i | 0 <= i < |a[id].parts| :: SameKeys(a[id].parts[i], b[id].parts[i])
  }

  lemma {:induction false} SameShapeSamePlace(a: Records, b: Records, u: ProgressUpdate)
    requires SameShape(a, b)
    ensures Place(a, u) == Place(b, u)
  {
    if u.messageId in a {
      var parts, i := a[u.messageId].parts, FirstMatch(a[u.messageId].parts, u.partId, u.transferId);
      forall k | 0 <= k < |parts|
        ensures Matches(parts[k], u.partId, u.transferId) <==> Matches(b[u.messageId].parts[k], u.partId, u.transferId)
      {
        assert SameKeys(parts[k], b[u.messageId].parts[k]);
      }
      FirstMatchIs(b[u.messageId].parts, u.partId, u.transferId, i);
    }
  }

  lemma {:induction false} AppliedKeepsShape(records: Records, u: ProgressUpdate)
    ensures SameShape(records, Applied(records, u))
  {
  }

  /** Different parts are found for different targets. */
  predicate Apart(records: Records, u: ProgressUpdate, v: ProgressUpdate) {
    SameTarget(u, v) || u.messageId != v.messageId || Place(records, u).None? || Place(records, u) != Place(records, v)
  }

  /** The part that is found has room for no progress. */
  predicate IsEmpty(records: Records, u: ProgressUpdate) {
    Place(records, u).Some? && records[u.messageId].parts[Place(records, u).value].fileSize == Some(0)
  }

  /** Different parts are found, or one of size 0. */
  predicate Independent(records: Records, u: ProgressUpdate, v: ProgressUpdate) {
    Apart(records, u, v) || IsEmpty(records, u)
  }

  lemma {:induction false} AppliedAt(records: Records, u: ProgressUpdate)
    requires Place(records, u).Some?
    ensures Applied(records, u)
         == WithPart(records, u.messageId, Place(records, u).value,
                     WithProgress(records[u.messageId].parts[Place(records, u).value], u.transferredSize))
  {
  }

  lemma {:induction false} WithPartsCommute(records: Records, m: string, i: nat, a: Part, n: string, j: nat, b: Part)
    requires m in records && i < |records[m].parts| && n in records && j < |records[n].parts|
    requires m != n || i != j || a == b
    ensures WithPart(WithPart(records, m, i, a), n, j, b) == WithPart(WithPart(records, n, j, b), m, i, a)
  {
    var mn, nm := WithPart(WithPart(records, m, i, a), n, j, b), WithPart(WithPart(records, n, j, b), m, i, a);
    if m == n {
      assert mn[m].parts == nm[m].parts;
    }
    assert mn == nm;
  }

  /** Where both are found, each leaves the part of the other as it was. */
  lemma {:induction false} BothApplied(records: Records, u: ProgressUpdate, v: ProgressUpdate)
    requires Place(records, u).Some? && Place(records, v).Some?
    requires u.messageId != v.messageId || Place(records, u) != Place(records, v)
    ensures var i, j := Place(records, u).value, Place(records, v).value;
            Applied(Applied(records, u), v)
            == WithPart(WithPart(records, u.messageId, i, WithProgress(records[u.messageId].parts[i], u.transferredSize)),
                        v.messageId, j, WithProgress(records[v.messageId].parts[j], v.transferredSize))
  {
    AppliedKeepsShape(records, u);
    SameShapeSamePlace(records, Applied(records, u), v);
    AppliedAt(records, u);
    AppliedAt(Applied(records, u), v);
  }

  lemma {:induction false} EmptyApplied(records: Records, u: ProgressUpdate, v: ProgressUpdate)
    requires u.messageId == v.messageId && Place(records, u) == Place(records, v) && IsEmpty(records, u)
    ensures Applied(Applied(records, u), v) == Applied(records, u) == Applied(records, v)
  {
    AppliedKeepsShape(records, u);
    SameShapeSamePlace(records, Applied(records, u), v);
    AppliedAt(records, u);
    AppliedAt(records, v);
    AppliedAt(Applied(records, u), v);
    var once, twice := Applied(records, u), Applied(Applied(records, u), v);
    assert twice[u.messageId].parts == once[u.messageId].parts;
    assert twice == once;
  }

  lemma {:induction false} NoPlaceChangesNothing(records: Records, u: ProgressUpdate, v: ProgressUpdate)
    requires Place(records, u).None?
    ensures Applied(records, u) == records && Applied(Applied(records, v), u) == Applied(records, v)
  {
    AppliedKeepsShape(records, v);
    SameShapeSamePlace(records, Applied(records, v), u);
  }

  /** Independent updates commute. */
  lemma {:induction false} IndependentCommute(records: Records, u: ProgressUpdate, v: ProgressUpdate)
    requires Independent(records, u, v) && !SameTarget(u, v)
    ensures Applied(Applied(records, u), v) == Applied(Applied(records, v), u)
  {
    if Place(records, u).None? {
      NoPlaceChangesNothing(records, u, v);
    } else if Place(records, v).None? {
      NoPlaceChangesNothing(records, v, u);
    } else if Apart(records, u, v) {
      BothApplied(records, u, v);
      BothApplied(records, v, u);
      var i, j := Place(records, u).value, Place(records, v).value;
      WithPartsCommute(records, u.messageId, i, WithProgress(records[u.messageId].parts[i], u.transferredSize),
                       v.messageId, j, WithProgress(records[v.messageId].parts[j], v.transferredSize));
    } else {
      EmptyApplied(records, u, v);
      EmptyApplied(records, v, u);
    }
  }

  /** A later update of the same target overwrites the earlier one. */
  lemma {:induction false} SameTargetOverwrites(records: Records, u: ProgressUpdate, v: ProgressUpdate)
    requires SameTarget(u, v)
    ensures Applied(Applied(records, u), v) == Applied(records, v)
  {
    AppliedKeepsShape(records, u);
    SameShapeSamePlace(records, Applied(records, u), v);
    if Place(records, u).Some? {
      AppliedAt(records, u);
      AppliedAt(records, v);
      AppliedAt(Applied(records, u), v);
      var once, twice := Applied(records, v), Applied(Applied(records, u), v);
      assert twice[u.messageId].parts == once[u.messageId].parts;
      assert twice == once;
    }
  }

  lemma {:induction false} AllAppliedKeepsShape(records: Records, updates: seq<ProgressUpdate>)
    ensures SameShape(records, AllApplied(records, updates))
    decreases |updates|
  {
    if updates != [] {
      AppliedKeepsShape(records, updates[0]);
      AllAppliedKeepsShape(Applied(records, updates[0]), updates[1..]);
      ShapeIsTransitive(records, Applied(records, updates[0]), AllApplied(records, updates));
    }
  }

  lemma {:induction false} ShapeIsTransitive(a: Records, b: Records, c: Records)
    requires SameShape(a, b) && SameShape(b, c)
    ensures SameShape(a, c)
  {
    forall id | id in a
      ensures |a[id].parts| == |c[id].parts| && forall i | 0 <= i < |a[id].parts| :: SameKeys(a[id].parts[i], c[id].parts[i])
    {
      forall i | 0 <= i < |a[id].parts| ensures SameKeys(a[id].parts[i], c[id].parts[i]) {
        assert SameKeys(a[id].parts[i], b[id].parts[i]) && SameKeys(b[id].parts[i], c[id].parts[i]);
      }
    }
  }

  lemma {:induction false} AllAppliedOfConcat(records: Records, a: seq<ProgressUpdate>, b: seq<ProgressUpdate>)
    ensures AllApplied(records, a + b) == AllApplied(AllApplied(records, a), b)
    decreases |a|
  {
    if a == [] {
      assert a + b == b;
    } else {
      assert (a + b)[1..] == a[1..] + b;
      AllAppliedOfConcat(Applied(records, a[0]), a[1..], b);
    }
  }

  ghost predicate IndependentOfAll(records: Records, u: ProgressUpdate, updates: seq<ProgressUpdate>) {
    forall k | 0 <= k < |updates| :: !SameTarget(u, updates[k]) && Independent(records, u, updates[k])
  }

  lemma {:induction false} IndependentKeepsShape(a: Records, b: Records, u: ProgressUpdate, updates: seq<ProgressUpdate>)
    requires SameShape(a, b) && IndependentOfAll(a, u, updates)
    ensures IndependentOfAll(b, u, updates)
  {
    SameShapeSamePlace(a, b, u);
    forall k | 0 <= k < |updates| ensures !SameTarget(u, updates[k]) && Independent(b, u, updates[k]) {
      assert Independent(a, u, updates[k]);
      SameShapeSamePlace(a, b, updates[k]);
    }
  }

  /** An update may be applied before or after a list of independent updates. */
  lemma {:induction false} CommutePast(records: Records, u: ProgressUpdate, updates: seq<ProgressUpdate>)
    requires IndependentOfAll(records, u, updates)
    ensures AllApplied(Applied(records, u), updates) == Applied(AllApplied(records, updates), u)
    decreases |updates|
  {
    if updates != [] {
      var first := updates[0];
      assert Independent(records, u, first);
      IndependentCommute(records, u, first);
      AppliedKeepsShape(records, first);
      IndependentKeepsShape(records, Applied(records, first), u, updates);
      CommutePast(Applied(records, first), u, updates[1..]);
    }
  }

  // ---- The compact queue does what the plain one does ----

  ghost predicate AllIndependent(records: Records, updates: seq<ProgressUpdate>) {
    forall i, j | 0 <= i < |updates| && 0 <= j < |updates| :: Independent(records, updates[i], updates[j])
  }

  lemma {:induction false} CompactHasOnly(updates: seq<ProgressUpdate>)
    ensures forall v :: v in Compact(updates) ==> v in updates
  {
    if updates != [] {
      var front, u := updates[..|updates| - 1], updates[|updates| - 1];
      CompactHasOnly(front);
      CoalescedIs(Compact(front), u, Position(Compact(front), u));
      assert updates == front + [u];
    }
  }

  /** Overwriting an earlier update in place is like applying the new one at the end. */
  lemma {:induction false} Overtakes(records: Records, v: ProgressUpdate, b: seq<ProgressUpdate>, u: ProgressUpdate)
    requires SameTarget(v, u) && IndependentOfAll(records, u, b)
    ensures AllApplied(Applied(records, u), b) == Applied(AllApplied(Applied(records, v), b), u)
  {
    AppliedKeepsShape(records, v);
    IndependentKeepsShape(records, Applied(records, v), u, b);
    CommutePast(Applied(records, v), u, b);
    SameTargetOverwrites(records, v, u);
  }

  lemma {:induction false} AllAppliedAround(records: Records, a: seq<ProgressUpdate>, u: ProgressUpdate,
        b: seq<ProgressUpdate>)
    ensures AllApplied(records, a + [u] + b) == AllApplied(Applied(AllApplied(records, a), u), b)
  {
    assert a + [u] + b == a + ([u] + b) && ([u] + b)[1..] == b;
    AllAppliedOfConcat(records, a, [u] + b);
  }

  lemma {:induction false} CoalescedApplies(records: Records, queue: seq<ProgressUpdate>, u: ProgressUpdate)
    requires DistinctTargets(queue) && forall k | 0 <= k < |queue| :: Independent(records, u, queue[k])
    ensures AllApplied(records, Coalesced(queue, u)) == Applied(AllApplied(records, queue), u)
  {
    var j := Position(queue, u);
    CoalescedIs(queue, u, j);
    if j == |queue| {
      AllAppliedOfConcat(records, queue, [u]);
    } else {
      var a, v, b := queue[..j], queue[j], queue[j + 1..];
      assert queue == a + [v] + b && queue[j := u] == a + [u] + b;
      AllAppliedAround(records, a, v, b);
      AllAppliedAround(records, a, u, b);
      forall k | 0 <= k < |b| ensures !SameTarget(u, b[k]) && Independent(records, u, b[k]) {
        assert b[k] == queue[j + 1 + k] && !SameTarget(queue[j], queue[j + 1 + k]);
      }
      AllAppliedKeepsShape(records, a);
      IndependentKeepsShape(records, AllApplied(records, a), u, b);
      Overtakes(AllApplied(records, a), v, b, u);
    }
  }

  /** Applying the compact queue leaves the records as if every update had been applied as it arrived. */
  lemma {:induction false} CompactAppliesAll(records: Records, updates: seq<ProgressUpdate>)
    requires AllIndependent(records, updates)
    ensures AllApplied(records, Compact(updates)) == AllApplied(records, updates)
  {
    if updates != [] {
      var n := |updates| - 1;
      var front, u := updates[..n], updates[n];
      CompactAppliesAll(records, front);
      OneEntryPerTarget(front);
      CompactHasOnly(front);
      forall k | 0 <= k < |Compact(front)| ensures Independent(records, u, Compact(front)[k]) {
        assert Compact(front)[k] in front;
        var i :| 0 <= i < |front| && front[i] == Compact(front)[k];
        assert Independent(records, updates[n], updates[i]);
      }
      CoalescedApplies(records, Compact(front), u);
      assert updates == front + [u];
      AllAppliedOfConcat(records, front, [u]);
    }
  }

  // ---- What stays queued ----

  function Kept(keep: ProgressUpdate -> bool, updates: seq<ProgressUpdate>): seq<ProgressUpdate> {
    if updates == [] then []
    else
      var last := updates[|updates| - 1];
      Kept(keep, updates[..|updates| - 1]) + if keep(last) then [last] else []
  }

  /** The choice depends on the target alone. */
  ghost predicate ByTarget(keep: ProgressUpdate -> bool) {
    forall u, v | SameTarget(u, v) :: keep(u) == keep(v)
  }

  lemma {:induction false} KeptOfConcat(keep: ProgressUpdate -> bool, a: seq<ProgressUpdate>, b: seq<ProgressUpdate>)
    ensures Kept(keep, a + b) == Kept(keep, a) + Kept(keep, b)
  {
    if b == [] {
      assert a + b == a;
    } else {
      KeptOfConcat(keep, a, b[..|b| - 1]);
      assert (a + b)[..|a + b| - 1] == a + b[..|b| - 1];
    }
  }

  lemma {:induction false} KeptOfOne(keep: ProgressUpdate -> bool, u: ProgressUpdate)
    ensures Kept(keep, [u]) == if keep(u) then [u] else []
  {
    assert [u][..0] == [];
  }

  lemma {:induction false} KeptAround(keep: ProgressUpdate -> bool, a: seq<ProgressUpdate>, u: ProgressUpdate,
        b: seq<ProgressUpdate>)
    ensures Kept(keep, a + [u] + b) == Kept(keep, a) + (if keep(u) then [u] else []) + Kept(keep, b)
  {
    KeptOfConcat(keep, a + [u], b);
    KeptOfConcat(keep, a, [u]);
    KeptOfOne(keep, u);
  }

  lemma {:induction false} KeptKeepsOthers(keep: ProgressUpdate -> bool, updates: seq<ProgressUpdate>,
        u: ProgressUpdate)
    requires forall k | 0 <= k < |updates| :: !SameTarget(updates[k], u)
    ensures forall k | 0 <= k < |Kept(keep, updates)| :: !SameTarget(Kept(keep, updates)[k], u)
  {
    if updates != [] {
      KeptKeepsOthers(keep, updates[..|updates| - 1], u);
    }
  }

  lemma {:induction false} CoalescedMiddle(a: seq<ProgressUpdate>, v: ProgressUpdate, b: seq<ProgressUpdate>,
        u: ProgressUpdate)
    requires SameTarget(v, u) && forall k | 0 <= k < |a| :: !SameTarget(a[k], u)
    ensures Coalesced(a + [v] + b, u) == a + [u] + b
  {
    CoalescedIs(a + [v] + b, u, |a|);
    assert (a + [v] + b)[|a| := u] == a + [u] + b;
  }

  lemma {:induction false} KeptMiddle(
      keep: ProgressUpdate -> bool, a: seq<ProgressUpdate>, v: ProgressUpdate, b: seq<ProgressUpdate>, u: ProgressUpdate)
    requires SameTarget(v, u) && keep(v) == keep(u) && forall k | 0 <= k < |a| :: !SameTarget(a[k], u)
    ensures Kept(keep, a + [u] + b)
         == if keep(u) then Coalesced(Kept(keep, a + [v] + b), u) else Kept(keep, a + [v] + b)
  {
    KeptAround(keep, a, v, b);
    KeptAround(keep, a, u, b);
    if keep(u) {
      KeptKeepsOthers(keep, a, u);
      CoalescedMiddle(Kept(keep, a), v, Kept(keep, b), u);
    }
  }

  /** Choosing by target and coalescing can be done in either order. */
  lemma {:induction false} KeptOfCoalesced(keep: ProgressUpdate -> bool, queue: seq<ProgressUpdate>, u: ProgressUpdate)
    requires ByTarget(keep)
    ensures Kept(keep, Coalesced(queue, u)) == if keep(u) then Coalesced(Kept(keep, queue), u) else Kept(keep, queue)
  {
    var j := Position(queue, u);
    if j == |queue| {
      CoalescedIs(queue, u, j);
      KeptOfConcat(keep, queue, [u]);
      KeptOfOne(keep, u);
      KeptKeepsOthers(keep, queue, u);
      CoalescedIs(Kept(keep, queue), u, |Kept(keep, queue)|);
    } else {
      assert queue == queue[..j] + [queue[j]] + queue[j + 1..];
      CoalescedMiddle(queue[..j], queue[j], queue[j + 1..], u);
      KeptMiddle(keep, queue[..j], queue[j], queue[j + 1..], u);
    }
  }

  lemma {:induction false} KeptOfCompact(keep: ProgressUpdate -> bool, updates: seq<ProgressUpdate>)
    requires ByTarget(keep)
    ensures Kept(keep, Compact(updates)) == Compact(Kept(keep, updates))
  {
    if updates != [] {
      var front, u := updates[..|updates| - 1], updates[|updates| - 1];
      KeptOfCompact(keep, front);
      KeptOfCoalesced(keep, Compact(front), u);
      if keep(u) {
        var left := Kept(keep, front);
        assert Kept(keep, updates) == left + [u] && (left + [u])[..|left|] == left;
      } else {
        assert Kept(keep, updates) == Kept(keep, front);
      }
    }
  }

  /** The updates for which no part is found stay queued. */
  function NoPlace(records: Records): ProgressUpdate -> bool {
    u => Place(records, u).None?
  }

  lemma {:induction false} NoPlaceIsByTarget(records: Records)
    ensures ByTarget(NoPlace(records))
  {
  }

  /** A drain of progress updates: applies those with a place, keeps the others. */
  lemma {:induction false} DrainOfProgress(records: Records, updates: seq<ProgressUpdate>)
    ensures Drain(OnProgress, records, updates).0 == AllApplied(records, updates)
    ensures Drain(OnProgress, records, updates).1 == Kept(NoPlace(records), updates)
  {
    if updates != [] {
      var front, u := updates[..|updates| - 1], updates[|updates| - 1];
      var before := AllApplied(records, front);
      DrainOfProgress(records, front);
      AllAppliedKeepsShape(records, front);
      SameShapeSamePlace(records, before, u);
      assert OnProgress(before, u).None? <==> NoPlace(records)(u);
      assert updates == front + [u];
      AllAppliedOfConcat(records, front, [u]);
    }
  }

  /** Draining the compact queue and the plain one: the same records, and what is left agrees again. */
  lemma {:induction false} CompactDrains(records: Records, updates: seq<ProgressUpdate>)
    requires AllIndependent(records, updates)
    ensures var plain, compact := Drain(OnProgress, records, updates), Drain(OnProgress, records, Compact(updates));
      compact.0 == plain.0 && compact.1 == Compact(plain.1)
  {
    CompactAppliesAll(records, updates);
    NoPlaceIsByTarget(records);
    KeptOfCompact(NoPlace(records), updates);
    DrainOfProgress(records, updates);
    DrainOfProgress(records, Compact(updates));
  }

  // ---- Well-formed targets ----

  /** The update names its part twice, by part id and by transfer id, and both mean the same parts. */
  ghost predicate Fits(records: Records, u: ProgressUpdate) {
    u.messageId in records ==>
      forall i | 0 <= i < |records[u.messageId].parts| :: NamesTwice(records[u.messageId].parts[i], u)
  }

  predicate NamesTwice(part: Part, u: ProgressUpdate) {
    part.partId == u.partId <==> part.transferId == Some(u.transferId)
  }

  lemma {:induction false} FittingAreApart(records: Records, u: ProgressUpdate, v: ProgressUpdate)
    requires Fits(records, u) && Fits(records, v)
    ensures Apart(records, u, v)
  {
    if u.messageId == v.messageId && Place(records, u).Some? && Place(records, u) == Place(records, v) {
      var part := records[u.messageId].parts[Place(records, u).value];
      assert NamesTwice(part, u) && NamesTwice(part, v);
    }
  }

  // ---- Whole runs ----

  /** The same step with a queue that keeps every progress update. */
  function PlainStep(w: World, event: Event): World {
    if event.EnqueueProgress? then w.(progressQueue := w.progressQueue + [event.progressUpdate]) else Step(w, event)
  }

  function PlainRun(w: World, events: seq<Event>): World {
    if events == [] then w else PlainStep(PlainRun(w, events[..|events| - 1]), events[|events| - 1])
  }

  ghost predicate WellFormedAt(w: World, event: Event) {
    event.DrainProgress? ==> forall k | 0 <= k < |w.progressQueue| :: Fits(w.records, w.progressQueue[k])
  }

  /** The coalescing system is where the plain one is, with its progress queue compacted. */
  ghost predicate Simulates(coalescing: World, plain: World) {
    coalescing == plain.(progressQueue := Compact(plain.progressQueue))
  }

  lemma {:induction false} DrainSimulates(plain: World)
    requires WellFormedAt(plain, DrainProgress)
    ensures Simulates(Step(plain.(progressQueue := Compact(plain.progressQueue)), DrainProgress), Step(plain, DrainProgress))
  {
    var records, updates := plain.records, plain.progressQueue;
    forall i, j | 0 <= i < |updates| && 0 <= j < |updates| ensures Independent(records, updates[i], updates[j]) {
      FittingAreApart(records, updates[i], updates[j]);
    }
    CompactDrains(records, updates);
  }

  lemma {:induction false} StepSimulates(coalescing: World, plain: World, event: Event)
    requires Simulates(coalescing, plain) && WellFormedAt(plain, event)
    ensures Simulates(Step(coalescing, event), PlainStep(plain, event))
  {
    match event
    case DrainProgress => DrainSimulates(plain);
    case EnqueueProgress(u) =>
      assert (plain.progressQueue + [u])[..|plain.progressQueue|] == plain.progressQueue;
    case _ =>
  }

  /** On every run with well-formed targets the records are those a plain queue would have given, and
      the queue never holds two entries for one target. */
  lemma {:induction false} CoalescingIsUnobservable(w: World, events: seq<Event>)
    requires w.progressQueue == []
    requires forall k | 0 <= k < |events| :: WellFormedAt(PlainRun(w, events[..k]), events[k])
    ensures Run(w, events).records == PlainRun(w, events).records
    ensures Simulates(Run(w, events), PlainRun(w, events)) && DistinctTargets(Run(w, events).progressQueue)
  {
    if events != [] {
      var n := |events| - 1;
      forall k | 0 <= k < n ensures WellFormedAt(PlainRun(w, events[..n][..k]), events[..n][k]) {
        assert events[..n][..k] == events[..k];
      }
      CoalescingIsUnobservable(w, events[..n]);
      StepSimulates(Run(w, events[..n]), PlainRun(w, events[..n]), events[n]);
    }
    OneEntryPerTarget(PlainRun(w, events).progressQueue);
  }

  // ---- Exactly when coalescing does not show ----

  /** Updates of two targets. */
  ghost predicate OnlyTargets(updates: seq<ProgressUpdate>, u: ProgressUpdate, v: ProgressUpdate) {
    forall k | 0 <= k < |updates| :: SameTarget(updates[k], u) || SameTarget(updates[k], v)
  }

  ghost predicate DrainsAlike(records: Records, updates: seq<ProgressUpdate>) {
    var plain, compact := Drain(OnProgress, records, updates), Drain(OnProgress, records, Compact(updates));
    compact.0 == plain.0 && compact.1 == Compact(plain.1)
  }

  lemma {:induction false} SameTargetSamePlace(records: Records, a: ProgressUpdate, b: ProgressUpdate)
    requires SameTarget(a, b)
    ensures Place(records, a) == Place(records, b) && IsEmpty(records, a) == IsEmpty(records, b)
  {}

  lemma {:induction false} IndependentTargets(records: Records, u: ProgressUpdate, v: ProgressUpdate, a: ProgressUpdate,
        b: ProgressUpdate)
    requires Independent(records, u, v)
    requires (SameTarget(a, u) || SameTarget(a, v)) && (SameTarget(b, u) || SameTarget(b, v))
    ensures Independent(records, a, b)
  {
    SameTargetSamePlace(records, a, if SameTarget(a, u) then u else v);
    SameTargetSamePlace(records, b, if SameTarget(b, u) then u else v);
  }

  lemma {:induction false} TargetsDrainAlike(records: Records, u: ProgressUpdate, v: ProgressUpdate,
        updates: seq<ProgressUpdate>)
    requires Independent(records, u, v) && OnlyTargets(updates, u, v)
    ensures DrainsAlike(records, updates)
  {
    forall i, j | 0 <= i < |updates| && 0 <= j < |updates|
      ensures Independent(records, updates[i], updates[j])
    {
      IndependentTargets(records, u, v, updates[i], updates[j]);
    }
    CompactDrains(records, updates);
  }

  /** The progress of the part that `u` finds. */
  function Shown(records: Records, u: ProgressUpdate): Option<nat>
    requires Place(records, u).Some?
  {
    records[u.messageId].parts[Place(records, u).value].transferredSize
  }

  lemma {:induction false} LastShows(records: Records, u: ProgressUpdate, last: ProgressUpdate)
    requires Place(records, u).Some? && last.messageId == u.messageId && Place(records, last) == Place(records, u)
    requires !IsEmpty(records, u) && last.transferredSize <= 1
    ensures Place(Applied(records, last), u) == Place(records, u) == Place(Applied(records, last), last)
    ensures Shown(Applied(records, last), u) == Some(last.transferredSize)
    ensures !IsEmpty(Applied(records, last), u)
  {
    AppliedKeepsShape(records, last);
    SameShapeSamePlace(records, Applied(records, last), u);
    SameShapeSamePlace(records, Applied(records, last), last);
    AppliedAt(records, last);
  }

  lemma {:induction false} ThreeShow(records: Records, u: ProgressUpdate, one: ProgressUpdate, zero: ProgressUpdate)
    requires Place(records, u).Some? && zero.messageId == u.messageId && Place(records, zero) == Place(records, u)
    requires !IsEmpty(records, u) && one == u.(transferredSize := 1) && zero.transferredSize == 0
    ensures var two, three := Applied(Applied(records, one), zero), Applied(Applied(Applied(records, one), zero), one);
            && Place(two, u) == Place(three, u) == Place(records, u)
            && Shown(two, u) == Some(0) && Shown(three, u) == Some(1)
  {
    SameTargetSamePlace(records, u, one);
    LastShows(records, u, one);
    AppliedKeepsShape(records, one);
    SameShapeSamePlace(records, Applied(records, one), zero);
    LastShows(Applied(records, one), u, zero);
    SameTargetSamePlace(Applied(Applied(records, one), zero), u, one);
    LastShows(Applied(Applied(records, one), zero), u, one);
  }

  lemma {:induction false} TwoDrained(records: Records, a: ProgressUpdate, b: ProgressUpdate)
    ensures Drain(OnProgress, records, [a, b]).0 == Applied(Applied(records, a), b)
  {
    DrainOfProgress(records, [a, b]);
    AppliedInTurn(records, a, b, a);
  }

  lemma {:induction false} ThreeDrained(records: Records, a: ProgressUpdate, b: ProgressUpdate, c: ProgressUpdate)
    ensures Drain(OnProgress, records, [a, b, c]).0 == Applied(Applied(Applied(records, a), b), c)
  {
    DrainOfProgress(records, [a, b, c]);
    AppliedInTurn(records, a, b, c);
  }

  /** With two targets for one part that is not empty, the coalescing queue can leave an older size behind:
      sizes 1 and 1 for one target with a 0 for the other in between. */
  lemma {:induction false} SharedPartShowsCoalescing(records: Records, u: ProgressUpdate, v: ProgressUpdate)
      returns (updates: seq<ProgressUpdate>, plain: Records, coalesced: Records)
    requires !SameTarget(u, v) && !Independent(records, u, v)
    ensures updates == [u.(transferredSize := 1), v.(transferredSize := 0), u.(transferredSize := 1)]
    ensures plain == Drain(OnProgress, records, updates).0 && coalesced == Drain(OnProgress, records, Compact(updates)).0
    ensures Place(plain, u) == Place(coalesced, u) == Place(records, u)
    ensures Shown(plain, u) == Some(1) && Shown(coalesced, u) == Some(0)
  {
    var one, zero := u.(transferredSize := 1), v.(transferredSize := 0);
    updates := [one, zero, one];
    CompactThree(one, zero, one);
    TwoDrained(records, one, zero);
    ThreeDrained(records, one, zero, one);
    plain, coalesced := Applied(Applied(Applied(records, one), zero), one), Applied(Applied(records, one), zero);
    ThreeShow(records, u, one, zero);
  }

  /** For updates of two different targets, the coalescing queue and the plain one drain alike in every order
      and with every size if and only if the targets find different parts, or one of size 0. */
  lemma {:induction false} TargetsDrainAlikeIff(records: Records, u: ProgressUpdate, v: ProgressUpdate)
    requires !SameTarget(u, v)
    ensures (forall updates | OnlyTargets(updates, u, v) :: DrainsAlike(records, updates)) <==> Independent(records, u, v)
  {
    if Independent(records, u, v) {
      forall updates | OnlyTargets(updates, u, v)
        ensures DrainsAlike(records, updates)
      {
        TargetsDrainAlike(records, u, v, updates);
      }
    } else {
      var updates, plain, coalesced := SharedPartShowsCoalescing(records, u, v);
      assert OnlyTargets(updates, u, v) && plain != coalesced;
    }
  }

  lemma {:induction false} AppliedInTurn(records: Records, a: ProgressUpdate, b: ProgressUpdate, c: ProgressUpdate)
    ensures AllApplied(records, [a, b]) == Applied(Applied(records, a), b)
    ensures AllApplied(records, [a, b, c]) == Applied(Applied(Applied(records, a), b), c)
  {
    assert [a] + [b] == [a, b] && [a, b] + [c] == [a, b, c];
    AllAppliedOfConcat(records, [a], [b]);
    AllAppliedOfConcat(records, [a, b], [c]);
    AppliedOnce(records, a);
    AppliedOnce(Applied(records, a), b);
    AppliedOnce(Applied(Applied(records, a), b), c);
  }

  lemma {:induction false} AppliedOnce(records: Records, u: ProgressUpdate)
    ensures AllApplied(records, [u]) == Applied(records, u)
  {
    assert [u][1..] == [];
  }

  lemma {:induction false} CompactThree(first: ProgressUpdate, other: ProgressUpdate, later: ProgressUpdate)
    requires SameTarget(first, later) && !SameTarget(first, other)
    ensures Compact([first, other, later]) == [later, other]
  {
    assert [first, other, later][..2] == [first, other] && [first, other][..1] == [first] && [first][..0] == [];
    CoalescedIs([], first, 0);
    CoalescedIs([first], other, 1);
    CoalescedIs([first, other], later, 0);
    assert Compact([first]) == [first];
    assert Compact([first, other]) == [first, other];
  }
}
