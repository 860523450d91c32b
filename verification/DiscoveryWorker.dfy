/** The discovery worker: its broadcast schedule, the bursts requested from outside, the reply limiter
    and the shutdown, thread by thread (src/net/discovery_worker.cpp). Times are in milliseconds. */
module DiscoveryWorker {

  const HELLO_REPLY_INTERVAL := 60000
  const MANUAL_BROADCAST_COUNT := 8

  type Time = nat
  type ReplyKey = string

  datatype RawConfig = Config(
    broadcastInterval: nat, startupInterval: nat, startupCount: nat, broadcastEnabled: bool, announceOnStart: bool)

  /** What `validateWorkerConfig` accepts. */
  type Config = c: RawConfig | c.broadcastInterval > 0 && c.startupInterval > 0 witness Config(5000, 1000, 3, true, true)

  // ---- What the mutex guards ----

  datatype Shared = Shared(requestedPending: nat, requestedAt: Time, lastReplies: map<ReplyKey, Time>)

  function ConsumeRequested(config: Config, s: Shared, now: Time): (Shared, bool) {
    if s.requestedPending == 0 || now < s.requestedAt then (s, false)
    else
      (s.(requestedPending := s.requestedPending - 1,
          requestedAt := if s.requestedPending > 1 then now + config.startupInterval else 0), true)
  }

  function Request(config: Config, s: Shared, now: Time): Shared {
    s.(requestedPending := if config.startupCount > 0 then config.startupCount else MANUAL_BROADCAST_COUNT,
       requestedAt := now)
  }

  function PermitReply(s: Shared, key: ReplyKey, now: Time): (Shared, bool) {
    if key in s.lastReplies && s.lastReplies[key] + HELLO_REPLY_INTERVAL > now then (s, false)
    else (s.(lastReplies := s.lastReplies[key := now]), true)
  }

  /** The schedule: when the next hello is due and how many quick ones are left after a start. */
  datatype Schedule = Schedule(nextBroadcastAt: Time, startupBroadcastsLeft: nat)

  function StartSchedule(config: Config, now: Time): Schedule {
    if config.announceOnStart then Schedule(now, config.startupCount) else Schedule(now + config.broadcastInterval, 0)
  }

  function AfterHello(config: Config, schedule: Schedule, now: Time): Schedule {
    var left := if schedule.startupBroadcastsLeft > 0 then schedule.startupBroadcastsLeft - 1 else 0;
    Schedule(now + (if left > 0 then config.startupInterval else config.broadcastInterval), left)
  }

  class Worker {
    const config: Config
    var requestedBroadcastsPending: nat
    var requestedBroadcastAt: Time
    var lastHelloReplyTimes: map<ReplyKey, Time>
    var stopping: bool
    var nextBroadcastAt: Time
    var startupBroadcastsLeft: nat

    function Guarded(): Shared
      reads this
    {
      Shared(requestedBroadcastsPending, requestedBroadcastAt, lastHelloReplyTimes)
    }

    function Due(): Schedule
      reads this
    {
      Schedule(nextBroadcastAt, startupBroadcastsLeft)
    }

    constructor (config: Config, now: Time)
      ensures this.config == config && !stopping
      ensures Guarded() == Shared(0, 0, map[]) && Due() == StartSchedule(config, now)
    {
      this.config := config;
      requestedBroadcastsPending, requestedBroadcastAt, lastHelloReplyTimes, stopping := 0, 0, map[], false;
      nextBroadcastAt, startupBroadcastsLeft := now, config.startupCount;
      new;
      if !config.announceOnStart {
        nextBroadcastAt := nextBroadcastAt + config.broadcastInterval;
        startupBroadcastsLeft := 0;
      }
    }

    method ConsumeRequestedBroadcast(now: Time) returns (consumed: bool)
      modifies this
      ensures (Guarded(), consumed) == ConsumeRequested(config, old(Guarded()), now)
      ensures Due() == old(Due()) && stopping == old(stopping)
    {
      if requestedBroadcastsPending <= 0 || now < requestedBroadcastAt { return false; }
      requestedBroadcastsPending := requestedBroadcastsPending - 1;
      if requestedBroadcastsPending > 0 {
        requestedBroadcastAt := now + config.startupInterval;
      } else {
        requestedBroadcastAt := 0;
      }
      return true;
    }

    method RequestFastBroadcast(now: Time)
      modifies this
      ensures Guarded() == if config.broadcastEnabled && !stopping then Request(config, old(Guarded()), now) else old(Guarded())
      ensures Due() == old(Due()) && stopping == old(stopping)
    {
      if !config.broadcastEnabled || stopping { return; }
      requestedBroadcastsPending := if config.startupCount > 0 then config.startupCount else MANUAL_BROADCAST_COUNT;
      requestedBroadcastAt := now;
    }

    method ShouldReplyToHello(key: ReplyKey, now: Time) returns (reply: bool)
      modifies this
      ensures (Guarded(), reply) == if config.broadcastEnabled && !stopping then PermitReply(old(Guarded()), key, now)
                                    else (old(Guarded()), false)
      ensures Due() == old(Due()) && stopping == old(stopping)
    {
      if !config.broadcastEnabled || stopping { return false; }
      if key in lastHelloReplyTimes && lastHelloReplyTimes[key] + HELLO_REPLY_INTERVAL > now { return false; }
      lastHelloReplyTimes := lastHelloReplyTimes[key := now];
      return true;
    }

    /** What the loop does after a broadcast that did not throw. */
    method BroadcastSent(now: Time)
      modifies this
      ensures Due() == AfterHello(config, old(Due()), now)
      ensures Guarded() == old(Guarded()) && stopping == old(stopping)
    {
      if startupBroadcastsLeft > 0 {
        startupBroadcastsLeft := startupBroadcastsLeft - 1;
      }
      if startupBroadcastsLeft > 0 {
        nextBroadcastAt := now + config.startupInterval;
      } else {
        nextBroadcastAt := now + config.broadcastInterval;
      }
    }
  }

  // ---- The threads ----

  /** Where the worker thread is. `now` is the time it read for the decision at hand. */
  datatype Place =
    | LoopTop
    | CheckBroadcast(now: Time)
    | Choose(now: Time)
    | Announce(now: Time, requested: bool)
    | Poll
    | CheckReply(key: ReplyKey, now: Time)
    | LimitReply(key: ReplyKey, now: Time)
    | SendReply(key: ReplyKey)
    | Exited

  /** Where the thread that calls `stop` is. */
  datatype Stopper = Running | FlagSet | StopRequested | Joined | Closed

  datatype Sent = Hello | Reply(key: ReplyKey) | Offline

  datatype HelloSent = HelloSent(time: Time, requested: bool)

  /** The history of the burst counter, in lock order. */
  datatype Burst = Asked(time: Time) | Consumed(time: Time)

  datatype World = World(
    clock: Time, shared: Shared, schedule: Schedule, place: Place,
    stopping: bool, stopper: Stopper, requestChecked: bool,
    sent: seq<Sent>, sentBeforeStop: nat,
    hellos: seq<HelloSent>, bursts: seq<Burst>, permits: seq<(ReplyKey, Time)>)

  datatype Packet = NoHello | HelloFrom(key: ReplyKey) | Throws

  /** Each step of a thread comes with what the network does: whether a send succeeds and what a poll yields. */
  datatype Event =
    | Tick(time: Time)
    | WorkerStep(ok: bool, packet: Packet)
    | StopStep(ok: bool)
    | RequestCheck
    | RequestCommit

  function Start(config: Config, now: Time): World {
    World(now, Shared(0, 0, map[]), StartSchedule(config, now), LoopTop, false, Running, false, [], 0, [], [], [])
  }

  function StepWorker(config: Config, w: World, ok: bool, packet: Packet): World {
    match w.place
    case LoopTop =>
      w.(place := if w.stopper.Running? || w.stopper.FlagSet? then CheckBroadcast(w.clock) else Exited)
    case CheckBroadcast(now) =>
      w.(place := if config.broadcastEnabled && !w.stopping then Choose(now) else Poll)
    case Choose(now) =>
      if now >= w.schedule.nextBroadcastAt then w.(place := Announce(now, false))
      else
        var (shared, consumed) := ConsumeRequested(config, w.shared, now);
        if consumed then w.(shared := shared, bursts := w.bursts + [Consumed(now)], place := Announce(now, true))
        else w.(place := Poll)
    case Announce(now, requested) =>
      if !ok then w.(place := LoopTop)
      else w.(sent := w.sent + [Hello], hellos := w.hellos + [HelloSent(now, requested)],
              schedule := AfterHello(config, w.schedule, now), place := Poll)
    case Poll =>
      w.(place := if packet.HelloFrom? then CheckReply(packet.key, w.clock) else LoopTop)
    case CheckReply(key, now) =>
      w.(place := if config.broadcastEnabled && !w.stopping then LimitReply(key, now) else LoopTop)
    case LimitReply(key, now) =>
      var (shared, permitted) := PermitReply(w.shared, key, now);
      if permitted then w.(shared := shared, permits := w.permits + [(key, now)], place := SendReply(key))
      else w.(place := LoopTop)
    case SendReply(key) => w.(sent := if ok then w.sent + [Reply(key)] else w.sent, place := LoopTop)
    case Exited => w
  }

  /** `stop`: the flag, the stop request, the join, the offline broadcast. */
  function StepStop(config: Config, w: World, ok: bool): World {
    match w.stopper
    case Running => w.(stopping := true, stopper := FlagSet, sentBeforeStop := |w.sent|)
    case FlagSet => w.(stopper := StopRequested)
    case StopRequested => if w.place.Exited? then w.(stopper := Joined) else w
    case Joined => w.(stopper := Closed, sent := if config.broadcastEnabled && ok then w.sent + [Offline] else w.sent)
    case Closed => w
  }

  function Step(config: Config, w: World, event: Event): World {
    match event
    case Tick(time) => if time >= w.clock then w.(clock := time) else w
    case WorkerStep(ok, packet) => StepWorker(config, w, ok, packet)
    case StopStep(ok) => StepStop(config, w, ok)
    case RequestCheck => w.(requestChecked := config.broadcastEnabled && !w.stopping)
    case RequestCommit =>
      if !w.requestChecked then w
      else w.(shared := Request(config, w.shared, w.clock), bursts := w.bursts + [Asked(w.clock)], requestChecked := false)
  }

  function Run(config: Config, start: Time, events: seq<Event>): World {
    if events == [] then Start(config, start)
    else Step(config, Run(config, start, events[..|events| - 1]), events[|events| - 1])
  }

  // ---- Shutdown ----

  predicate HoldsDecidedSend(place: Place) {
    place.Choose? || place.Announce? || place.LimitReply? || place.SendReply?
  }

  /** How far the worker may be while `stop` is at a given point. */
  predicate PlacesAgree(w: World) {
    && (w.stopping <==> !w.stopper.Running?)
    && (w.place.Exited? ==> !w.stopper.Running? && !w.stopper.FlagSet?)
    && (w.stopper.Joined? || w.stopper.Closed? ==> w.place.Exited?)
  }

  /** No offline broadcast, except as the very last thing after the worker has ended. */
  ghost predicate OfflineIsLast(w: World) {
    forall k | 0 <= k < |w.sent| :: w.sent[k].Offline? ==> k == |w.sent| - 1 && w.stopper.Closed?
  }

  /** What may have been sent since the flag was set. */
  ghost predicate FewLateSends(w: World) {
    && w.sentBeforeStop <= |w.sent|
    && (w.stopping && !w.stopper.Closed? ==> |w.sent| <= w.sentBeforeStop + if HoldsDecidedSend(w.place) then 0 else 1)
    && (w.stopper.Closed? ==>
          |w.sent| <= w.sentBeforeStop + if w.sent != [] && w.sent[|w.sent| - 1].Offline? then 2 else 1)
  }

  ghost predicate ShutdownInvariant(w: World) {
    PlacesAgree(w) && OfflineIsLast(w) && FewLateSends(w)
  }

  /** The worker moves on without sending; it decides to send only before the flag is set, or has decided. */
  lemma {:induction false} MovingKeepsShutdownInvariant(w: World, w': World)
    requires ShutdownInvariant(w) && !w.place.Exited?
    requires w'.sent == w.sent && w'.sentBeforeStop == w.sentBeforeStop
    requires w'.stopper == w.stopper && w'.stopping == w.stopping
    requires w'.place.Exited? ==> !w.stopper.Running? && !w.stopper.FlagSet?
    requires HoldsDecidedSend(w'.place) ==> HoldsDecidedSend(w.place) || !w.stopping
    ensures ShutdownInvariant(w')
  {
  }

  /** The worker sends what it had decided. */
  lemma {:induction false} SendingKeepsShutdownInvariant(w: World, w': World, packet: Sent)
    requires ShutdownInvariant(w) && HoldsDecidedSend(w.place) && !packet.Offline?
    requires w'.sent == w.sent + [packet] && w'.sentBeforeStop == w.sentBeforeStop
    requires w'.stopper == w.stopper && w'.stopping == w.stopping
    requires !w'.place.Exited? && !HoldsDecidedSend(w'.place)
    ensures ShutdownInvariant(w')
  {
  }

  lemma {:induction false} WorkerMovesOrSends(config: Config, w: World, ok: bool, packet: Packet)
    requires !w.place.Exited?
    ensures var w' := StepWorker(config, w, ok, packet);
            && w'.sentBeforeStop == w.sentBeforeStop && w'.stopper == w.stopper && w'.stopping == w.stopping
            && if w'.sent != w.sent then
                 && HoldsDecidedSend(w.place) && !HoldsDecidedSend(w'.place) && !w'.place.Exited?
                 && w'.sent == w.sent + [if w.place.SendReply? then Reply(w.place.key) else Hello]
               else
                 && (w'.place.Exited? ==> !w.stopper.Running? && !w.stopper.FlagSet?)
                 && (HoldsDecidedSend(w'.place) ==> HoldsDecidedSend(w.place) || !w.stopping)
  {
  }

  lemma {:induction false} WorkerKeepsShutdownInvariant(config: Config, w: World, ok: bool, packet: Packet)
    requires ShutdownInvariant(w)
    ensures ShutdownInvariant(StepWorker(config, w, ok, packet))
  {
    var w' := StepWorker(config, w, ok, packet);
    if !w.place.Exited? {
      WorkerMovesOrSends(config, w, ok, packet);
      if w'.sent != w.sent {
        SendingKeepsShutdownInvariant(w, w', if w.place.SendReply? then Reply(w.place.key) else Hello);
      } else {
        MovingKeepsShutdownInvariant(w, w');
      }
    }
  }

  lemma {:induction false} StopKeepsShutdownInvariant(config: Config, w: World, ok: bool)
    requires ShutdownInvariant(w)
    ensures ShutdownInvariant(StepStop(config, w, ok))
  {
  }

  lemma {:induction false} ShutdownInvariantOverRun(config: Config, start: Time, events: seq<Event>)
    ensures ShutdownInvariant(Run(config, start, events))
  {
    if events != [] {
      var w, event := Run(config, start, events[..|events| - 1]), events[|events| - 1];
      ShutdownInvariantOverRun(config, start, events[..|events| - 1]);
      if event.WorkerStep? { WorkerKeepsShutdownInvariant(config, w, event.ok, event.packet); }
      if event.StopStep? { StopKeepsShutdownInvariant(config, w, event.ok); }
    }
  }

  /** Under every interleaving: once the flag is set at most one hello or reply is still sent, one that
      was already decided; and an offline broadcast is the last thing sent, whatever happens later. */
  lemma {:induction false} QuietAfterStop(config: Config, start: Time, events: seq<Event>)
    ensures var w := Run(config, start, events);
      && w.sentBeforeStop <= |w.sent|
      && (w.stopping ==>
            var late := w.sent[w.sentBeforeStop..];
            |late| <= 2 && (|late| == 2 ==> late[1].Offline?))
      && (forall k | 0 <= k < |w.sent| :: w.sent[k].Offline? ==> k == |w.sent| - 1 && w.stopper.Closed? && w.place.Exited?)
  {
    ShutdownInvariantOverRun(config, start, events);
  }

  /** With nothing decided when the flag is set, nothing but the offline broadcast follows. */
  ghost predicate NothingDecided(w: World) {
    w.stopping && !HoldsDecidedSend(w.place)
  }

  lemma {:induction false} NothingDecidedNothingSent(config: Config, w: World, event: Event)
    requires NothingDecided(w)
    ensures NothingDecided(Step(config, w, event))
    ensures var s' := Step(config, w, event).sent; s' == w.sent || s' == w.sent + [Offline]
  {
  }

  // ---- The reply limiter ----

  ghost predicate RepliesInvariant(w: World) {
    && (forall i | 0 <= i < |w.permits| ::
          w.permits[i].0 in w.shared.lastReplies && w.permits[i].1 <= w.shared.lastReplies[w.permits[i].0])
    && (forall i, j | 0 <= i < j < |w.permits| && w.permits[i].0 == w.permits[j].0 ::
          w.permits[i].1 + HELLO_REPLY_INTERVAL <= w.permits[j].1)
  }

  lemma {:induction false} PermitKeepsReplies(w: World, w': World, key: ReplyKey, now: Time)
    requires RepliesInvariant(w) && PermitReply(w.shared, key, now).1
    requires w'.shared == PermitReply(w.shared, key, now).0 && w'.permits == w.permits + [(key, now)]
    ensures RepliesInvariant(w')
  {
  }

  /** Over the whole run two replies permitted for one key are at least 60 s apart. */
  lemma {:induction false} RepliesAreSpaced(config: Config, start: Time, events: seq<Event>)
    ensures RepliesInvariant(Run(config, start, events))
  {
    if events != [] {
      var w, event := Run(config, start, events[..|events| - 1]), events[|events| - 1];
      RepliesAreSpaced(config, start, events[..|events| - 1]);
      var w' := Step(config, w, event);
      if event.WorkerStep? && w.place.LimitReply? && PermitReply(w.shared, w.place.key, w.place.now).1 {
        PermitKeepsReplies(w, w', w.place.key, w.place.now);
      } else {
        assert w'.permits == w.permits && w'.shared.lastReplies == w.shared.lastReplies;
      }
    }
  }
}
