/** What the discovery worker does send: requested bursts in full, hellos when they are due, replies to those not
    answered lately, and the offline broadcast once it has ended (src/net/discovery_worker.cpp). */
module DiscoveryAnswers {
  import opened DiscoveryWorker
  import opened BroadcastRate

  // ---- Requested bursts ----

  /** How many hellos one request asks for. */
  function BurstLength(config: Config): nat {
    if config.startupCount == 0 then 8 else config.startupCount
  }

  function ConsumedSinceAsked(bursts: seq<Burst>): nat {
    if bursts == [] || bursts[|bursts| - 1].Asked? then 0 else 1 + ConsumedSinceAsked(bursts[..|bursts| - 1])
  }

  ghost predicate WasAsked(bursts: seq<Burst>) {
    exists k :: 0 <= k < |bursts| && bursts[k].Asked?
  }

  /** What was taken since the last request and what is still pending make up one burst. */
  ghost predicate BurstInvariant(config: Config, bursts: seq<Burst>, pending: nat) {
    ConsumedSinceAsked(bursts) + pending == if WasAsked(bursts) then BurstLength(config) else 0
  }

  lemma {:induction false} AddToBurst(bursts: seq<Burst>, burst: Burst)
    ensures ConsumedSinceAsked(bursts + [burst]) == if burst.Asked? then 0 else 1 + ConsumedSinceAsked(bursts)
    ensures WasAsked(bursts + [burst]) <==> burst.Asked? || WasAsked(bursts)
  {
    assert (bursts + [burst])[..|bursts|] == bursts;
    if burst.Asked? { assert (bursts + [burst])[|bursts|].Asked?; }
    if k :| 0 <= k < |bursts| && bursts[k].Asked? { assert (bursts + [burst])[k].Asked?; }
  }

  predicate BurstUntouched(w: World, w': World) {
    w'.bursts == w.bursts && w'.shared.requestedPending == w.shared.requestedPending
  }

  predicate BurstTaken(w: World, w': World, now: Time) {
    w'.bursts == w.bursts + [Consumed(now)] && w'.shared.requestedPending == w.shared.requestedPending - 1
  }

  predicate BurstAsked(config: Config, w: World, w': World) {
    w'.bursts == w.bursts + [Asked(w.clock)] && w'.shared.requestedPending == BurstLength(config)
  }

  lemma {:induction false} WorkerOnBurst(config: Config, w: World, ok: bool, packet: Packet)
    ensures var w' := StepWorker(config, w, ok, packet);
            BurstUntouched(w, w') || (w.place.Choose? && BurstTaken(w, w', w.place.now))
  {
  }

  lemma {:induction false} StepOnBurst(config: Config, w: World, event: Event)
    ensures var w' := Step(config, w, event);
            || BurstUntouched(w, w')
            || (w.place.Choose? && BurstTaken(w, w', w.place.now))
            || BurstAsked(config, w, w')
  {
    if event.WorkerStep? { WorkerOnBurst(config, w, event.ok, event.packet); }
  }

  /** Conservation on every run: the hellos taken since the last request and those still pending make up its
      burst, and without a request there are none. */
  lemma {:induction false} BurstIsConserved(config: Config, start: Time, events: seq<Event>)
    ensures var w := Run(config, start, events); BurstInvariant(config, w.bursts, w.shared.requestedPending)
  {
    if events != [] {
      var w := Run(config, start, events[..|events| - 1]);
      BurstIsConserved(config, start, events[..|events| - 1]);
      StepOnBurst(config, w, events[|events| - 1]);
      AddToBurst(w.bursts, Asked(w.clock));
      if w.place.Choose? { AddToBurst(w.bursts, Consumed(w.place.now)); }
    }
  }

  /** A request made while broadcasting is on and nothing stops the worker is due at once with its whole burst;
      any other changes nothing. */
  lemma {:induction false} RequestIsDueIff(config: Config, w: World)
    ensures var w' := Step(config, Step(config, w, RequestCheck), RequestCommit);
            if config.broadcastEnabled && !w.stopping then
              w'.shared.requestedPending == BurstLength(config) > 0 && RequestedIsDue(w', w'.clock) && !w'.requestChecked
            else w' == w.(requestChecked := false)
  {
  }

  // ---- Hellos that are due ----

  predicate ScheduledIsDue(w: World, now: Time) {
    w.schedule.nextBroadcastAt <= now
  }

  predicate RequestedIsDue(w: World, now: Time) {
    w.shared.requestedPending > 0 && w.shared.requestedAt <= now
  }

  /** When the next scheduled hello of a run is due: at the start or one interval later, then one interval after the
      last hello, which is the short one until the startup hellos are through. */
  function DueTime(config: Config, start: Time, hellos: seq<HelloSent>): Time {
    if hellos == [] then start + (if config.announceOnStart then 0 else config.broadcastInterval)
    else hellos[|hellos| - 1].time + IntervalAfter(config, |hellos|)
  }

  /** Without a hello the schedule stays. */
  lemma {:induction false} StepKeepsSchedule(config: Config, w: World, event: Event)
    requires Step(config, w, event).hellos == []
    ensures w.hellos == [] && Step(config, w, event).schedule == w.schedule
  {
    if !event.RequestCommit? && !(event.WorkerStep? && (w.place.Announce? || w.place.Choose?)) {
      OtherSteps(config, w, event);
    }
  }

  lemma {:induction false} FirstIsDue(config: Config, start: Time, events: seq<Event>)
    ensures var w := Run(config, start, events); w.hellos == [] ==> w.schedule.nextBroadcastAt == DueTime(config, start, [])
  {
    if events != [] && Run(config, start, events).hellos == [] {
      StepKeepsSchedule(config, Run(config, start, events[..|events| - 1]), events[|events| - 1]);
      FirstIsDue(config, start, events[..|events| - 1]);
    }
  }

  /** On every run a scheduled hello is due exactly from that time on. */
  lemma {:induction false} ScheduledIsDueIff(config: Config, start: Time, events: seq<Event>, now: Time)
    ensures var w := Run(config, start, events); ScheduledIsDue(w, now) <==> DueTime(config, start, w.hellos) <= now
  {
    FirstIsDue(config, start, events);
    SpacingOverRun(config, start, events);
  }

  /** When the next requested hello of a run is due: at once after a request, else the short interval after the
      last one taken. */
  lemma {:induction false} RequestedIsDueIff(config: Config, start: Time, events: seq<Event>, now: Time)
    ensures var w := Run(config, start, events);
            RequestedIsDue(w, now) <==>
              && WasAsked(w.bursts) && ConsumedSinceAsked(w.bursts) < BurstLength(config)
              && match w.bursts[|w.bursts| - 1]
                 case Asked(time) => time <= now
                 case Consumed(time) => time + config.startupInterval <= now
  {
    BurstIsConserved(config, start, events);
    SpacingOverRun(config, start, events);
  }

  /** Where it chooses, the worker announces a scheduled hello if one is due, else a requested one if one is due,
      which it takes from the burst; else it polls. */
  lemma {:induction false} DueIsAnnounced(config: Config, w: World, ok: bool, packet: Packet)
    requires w.place.Choose?
    ensures var w', now := StepWorker(config, w, ok, packet), w.place.now;
            && w'.sent == w.sent
            && w'.place == (if ScheduledIsDue(w, now) || RequestedIsDue(w, now)
                            then Announce(now, !ScheduledIsDue(w, now)) else Poll)
            && (if w'.place == Announce(now, true) then BurstTaken(w, w', now) else BurstUntouched(w, w'))
  {
  }

  predicate MayRun(config: Config, w: World) {
    config.broadcastEnabled && !w.stopping && w.stopper.Running?
  }

  /** Some steps of the worker while nothing stops it and its network works. */
  function Steps(config: Config, w: World, count: nat): World {
    if count == 0 then w else StepWorker(config, Steps(config, w, count - 1), true, NoHello)
  }

  lemma {:induction false} NextStep(config: Config, w: World, count: nat)
    ensures Steps(config, w, count + 1) == StepWorker(config, Steps(config, w, count), true, NoHello)
  {
  }

  lemma {:induction false} LoopReachesChoice(config: Config, w: World)
    requires MayRun(config, w) && w.place == LoopTop
    ensures Steps(config, w, 2) == w.(place := Choose(w.clock))
  {
    NextStep(config, w, 0);
    NextStep(config, w, 1);
  }

  /** From the top of the loop the worker polls after one hello if any is due at that time, else after none. */
  lemma {:induction false} LoopSendsDueHello(config: Config, w: World)
    requires MayRun(config, w) && w.place == LoopTop
    ensures var due, scheduled := ScheduledIsDue(w, w.clock) || RequestedIsDue(w, w.clock), ScheduledIsDue(w, w.clock);
            var w' := Steps(config, w, if due then 4 else 3);
            && w'.place == Poll
            && w'.sent == w.sent + (if due then [Hello] else [])
            && w'.hellos == w.hellos + (if due then [HelloSent(w.clock, !scheduled)] else [])
  {
    LoopReachesChoice(config, w);
    var w2 := w.(place := Choose(w.clock));
    NextStep(config, w, 2);
    NextStep(config, w, 3);
    DueIsAnnounced(config, w2, true, NoHello);
  }

  /** A hello that cannot be sent is given up: nothing is recorded, and the loop starts over. */
  lemma {:induction false} FailedHelloIsGivenUp(config: Config, w: World, packet: Packet)
    requires w.place.Announce?
    ensures StepWorker(config, w, false, packet) == w.(place := LoopTop)
  {
  }

  /** A new worker that announces itself sends its first hello before it polls; any other polls first. */
  lemma {:induction false} NewWorkerAnnounces(config: Config, start: Time)
    requires config.broadcastEnabled
    ensures var w' := Steps(config, Start(config, start), if config.announceOnStart then 4 else 3);
            w'.place == Poll && w'.sent == if config.announceOnStart then [Hello] else []
  {
    LoopSendsDueHello(config, Start(config, start));
  }

  /** Without broadcasting the worker never sends anything, not even when it is asked to or when it stops. */
  ghost predicate IsSilent(w: World) {
    w.sent == [] && w.bursts == [] && !w.requestChecked && !HoldsDecidedSend(w.place)
  }

  lemma {:induction false} SilentWithoutBroadcasting(config: Config, start: Time, events: seq<Event>)
    requires !config.broadcastEnabled
    ensures IsSilent(Run(config, start, events))
  {
    if events != [] {
      var w, event := Run(config, start, events[..|events| - 1]), events[|events| - 1];
      SilentWithoutBroadcasting(config, start, events[..|events| - 1]);
      match event
      case WorkerStep(ok, packet) => WorkerStaysSilent(config, w, ok, packet);
      case _ =>
    }
  }

  lemma {:induction false} WorkerStaysSilent(config: Config, w: World, ok: bool, packet: Packet)
    requires !config.broadcastEnabled && IsSilent(w)
    ensures IsSilent(StepWorker(config, w, ok, packet))
  {
  }

  /** The worker reads the latest time there was. */
  lemma {:induction false} TimePasses(config: Config, w: World, time: Time)
    ensures var clock := Step(config, w, Tick(time)).clock; clock >= time && clock >= w.clock && clock in {time, w.clock}
  {
  }

  // ---- Replies ----

  ghost predicate LastAreRecorded(w: World) {
    forall key | key in w.shared.lastReplies :: IsPermit(w.permits, key, w.shared.lastReplies[key])
  }

  predicate IsPermit(permits: seq<(ReplyKey, Time)>, key: ReplyKey, time: Time) {
    (key, time) in permits
  }

  /** Nobody under this key was permitted a reply within the minute before `now`. */
  ghost predicate NotRepliedLately(permits: seq<(ReplyKey, Time)>, key: ReplyKey, now: Time) {
    forall time: Time | IsPermit(permits, key, time) :: time + 60000 <= now
  }

  lemma {:induction false} WorkerKeepsRecorded(config: Config, w: World, ok: bool, packet: Packet)
    requires LastAreRecorded(w) && w.place.LimitReply?
    ensures LastAreRecorded(StepWorker(config, w, ok, packet))
  {
  }

  lemma {:induction false} OtherStepsReply(config: Config, w: World, event: Event)
    requires !(event.WorkerStep? && w.place.LimitReply?)
    ensures var w' := Step(config, w, event); w'.permits == w.permits && w'.shared.lastReplies == w.shared.lastReplies
  {
  }

  lemma {:induction false} RecordedOverRun(config: Config, start: Time, events: seq<Event>)
    ensures LastAreRecorded(Run(config, start, events))
  {
    if events != [] {
      var w, event := Run(config, start, events[..|events| - 1]), events[|events| - 1];
      RecordedOverRun(config, start, events[..|events| - 1]);
      if event.WorkerStep? && w.place.LimitReply? {
        WorkerKeepsRecorded(config, w, event.ok, event.packet);
      } else {
        OtherStepsReply(config, w, event);
      }
    }
  }

  /** On every run the limiter permits a reply, and records it, exactly if none was permitted within a minute. */
  lemma {:induction false} ReplyIsPermittedIff(config: Config, start: Time, events: seq<Event>, ok: bool, packet: Packet)
    requires Run(config, start, events).place.LimitReply?
    ensures var w := Run(config, start, events);
            var w', key, now := StepWorker(config, w, ok, packet), w.place.key, w.place.now;
            if NotRepliedLately(w.permits, key, now) then w'.place == SendReply(key) && w'.permits == w.permits + [(key, now)]
            else w'.place == LoopTop && w'.permits == w.permits
  {
    var w := Run(config, start, events);
    var key, now := w.place.key, w.place.now;
    RecordedOverRun(config, start, events);
    RepliesAreSpaced(config, start, events);
    if key in w.shared.lastReplies {
      assert IsPermit(w.permits, key, w.shared.lastReplies[key]);
    } else {
      assert forall time: Time :: !IsPermit(w.permits, key, time);
    }
  }

  /** A hello received while nothing stops the worker goes to the limiter, and a reply that is permitted is sent. */
  lemma {:induction false} HelloIsAnswered(config: Config, w: World, key: ReplyKey, ok: bool, packet: Packet)
    requires MayRun(config, w) && w.place == Poll
    ensures var w2 := StepWorker(config, StepWorker(config, w, ok, HelloFrom(key)), ok, packet);
            w2 == w.(place := LimitReply(key, w.clock))
    ensures StepWorker(config, w.(place := SendReply(key)), true, packet) == w.(sent := w.sent + [Reply(key)], place := LoopTop)
    ensures StepWorker(config, w.(place := SendReply(key)), false, packet) == w.(place := LoopTop)
  {
  }

  // ---- The end ----

  /** How many steps the worker still takes at most once it is asked to stop. */
  function StepsLeft(place: Place): nat {
    match place
    case Exited => 0
    case LoopTop => 1
    case CheckReply(_, _) => 2
    case SendReply(_) => 2
    case LimitReply(_, _) => 3
    case Poll => 3
    case CheckBroadcast(_) => 4
    case Announce(_, _) => 4
    case Choose(_) => 5
  }

  function WorkerRun(config: Config, w: World, moves: seq<(bool, Packet)>): World
    decreases |moves|
  {
    if moves == [] then w else WorkerRun(config, StepWorker(config, w, moves[0].0, moves[0].1), moves[1..])
  }

  lemma {:induction false} StepComesNearer(config: Config, w: World, ok: bool, packet: Packet)
    requires w.stopping && w.stopper.StopRequested? && !w.place.Exited?
    ensures var w' := StepWorker(config, w, ok, packet);
            w'.stopping && w'.stopper.StopRequested? && StepsLeft(w'.place) < StepsLeft(w.place)
  {
  }

  /** Once it is asked to stop, the worker ends after at most five steps, whatever the network does. */
  lemma {:induction false} WorkerEnds(config: Config, w: World, moves: seq<(bool, Packet)>)
    requires w.stopping && w.stopper.StopRequested? && StepsLeft(w.place) <= |moves|
    ensures var w' := WorkerRun(config, w, moves); w'.place.Exited? && w'.stopper.StopRequested? && w'.stopping
    decreases |moves|
  {
    if moves != [] {
      if !w.place.Exited? { StepComesNearer(config, w, moves[0].0, moves[0].1); }
      WorkerEnds(config, StepWorker(config, w, moves[0].0, moves[0].1), moves[1..]);
    }
  }

  /** Stopping: the flag and the request, five steps of the worker, the join, then the offline broadcast, which
      goes out exactly if broadcasting is on and the network works. */
  lemma {:induction false} StopSaysOffline(config: Config, w: World, moves: seq<(bool, Packet)>, ok: bool)
    requires w.stopper.Running? && !w.place.Exited? && |moves| >= 5
    ensures var ended := WorkerRun(config, StepStop(config, StepStop(config, w, ok), ok), moves);
            var w' := StepStop(config, StepStop(config, ended, ok), ok);
            && w'.stopper.Closed? && w'.stopping
            && w'.sent == ended.sent + (if config.broadcastEnabled && ok then [Offline] else [])
  {
    WorkerEnds(config, StepStop(config, StepStop(config, w, ok), ok), moves);
  }
}
