/** How often the discovery worker says hello: spacing of scheduled and requested broadcasts and a bound
    for every window of time, under every interleaving of its threads (src/net/discovery_worker.cpp). */
module BroadcastRate {
  import opened Prelude
  import opened DiscoveryWorker

  function Shortest(config: Config): (m: nat)
    ensures 0 < m <= config.startupInterval && m <= config.broadcastInterval
  {
    Min(config.startupInterval, config.broadcastInterval)
  }

  // ---- Spacing ----

  /** The interval that follows after `sent` hellos: the startup burst first, then the normal pace. */
  function IntervalAfter(config: Config, sent: nat): nat {
    if config.announceOnStart && sent < config.startupCount then config.startupInterval else config.broadcastInterval
  }

  /** Broadcasts in the order of their times; a scheduled one waits for its interval after the one before it. */
  ghost predicate HellosScheduled(config: Config, hellos: seq<HelloSent>) {
    forall j | 0 < j < |hellos| :: HelloFollows(hellos[j - 1], hellos[j], IntervalAfter(config, j))
  }

  /** The same with one interval for all. */
  ghost predicate HellosSpaced(hellos: seq<HelloSent>, m: nat) {
    forall j | 0 < j < |hellos| :: HelloFollows(hellos[j - 1], hellos[j], m)
  }

  predicate HelloFollows(before: HelloSent, hello: HelloSent, m: nat) {
    before.time <= hello.time && (!hello.requested ==> before.time + m <= hello.time)
  }

  /** Requested broadcasts are at least the startup interval apart, unless a request came in between. */
  ghost predicate BurstsSpaced(bursts: seq<Burst>, interval: nat) {
    forall j | 0 < j < |bursts| :: BurstFollows(bursts[j - 1], bursts[j], interval)
  }

  predicate BurstFollows(before: Burst, burst: Burst, interval: nat) {
    before.time + (if before.Consumed? && burst.Consumed? then interval else 0) <= burst.time
  }

  /** When the next requested broadcast may be consumed. */
  function NotBefore(burst: Burst, interval: nat): Time {
    burst.time + if burst.Consumed? then interval else 0
  }

  function LastHello(w: World): Time {
    if w.hellos == [] then 0 else w.hellos[|w.hellos| - 1].time
  }

  ghost predicate PlaceInvariant(w: World) {
    match w.place
    case CheckBroadcast(now) => LastHello(w) <= now <= w.clock
    case Choose(now) => LastHello(w) <= now <= w.clock
    case Announce(now, requested) => LastHello(w) <= now <= w.clock && (requested || w.schedule.nextBroadcastAt <= now)
    case _ => LastHello(w) <= w.clock
  }

  ghost predicate SpacingInvariant(config: Config, w: World) {
    && HellosScheduled(config, w.hellos)
    && BurstsSpaced(w.bursts, config.startupInterval)
    && PlaceInvariant(w)
    && (w.hellos != [] ==> w.schedule.nextBroadcastAt == LastHello(w) + IntervalAfter(config, |w.hellos|))
    && w.schedule.startupBroadcastsLeft
       == (if config.announceOnStart && |w.hellos| < config.startupCount then config.startupCount - |w.hellos| else 0)
    && (w.bursts != [] ==> w.bursts[|w.bursts| - 1].time <= w.clock)
    && (w.shared.requestedPending > 0 ==>
          w.bursts != [] && w.shared.requestedAt == NotBefore(w.bursts[|w.bursts| - 1], config.startupInterval))
  }

  lemma {:induction false} AppendHello(config: Config, hellos: seq<HelloSent>, hello: HelloSent)
    requires HellosScheduled(config, hellos)
    requires hellos != [] ==> HelloFollows(hellos[|hellos| - 1], hello, IntervalAfter(config, |hellos|))
    ensures HellosScheduled(config, hellos + [hello])
  {
  }

  lemma {:induction false} ScheduledAreSpaced(config: Config, hellos: seq<HelloSent>)
    requires HellosScheduled(config, hellos)
    ensures HellosSpaced(hellos, Shortest(config))
  {
    forall j | 0 < j < |hellos| ensures HelloFollows(hellos[j - 1], hellos[j], Shortest(config)) {
      assert HelloFollows(hellos[j - 1], hellos[j], IntervalAfter(config, j));
    }
  }

  lemma {:induction false} AppendBurst(bursts: seq<Burst>, burst: Burst, interval: nat)
    requires BurstsSpaced(bursts, interval)
    requires bursts != [] ==> BurstFollows(bursts[|bursts| - 1], burst, interval)
    ensures BurstsSpaced(bursts + [burst], interval)
  {
  }

  /** A hello goes out: the schedule follows it. */
  lemma {:induction false} HelloKeepsSpacing(config: Config, w: World, w': World, now: Time, requested: bool)
    requires SpacingInvariant(config, w) && w.place == Announce(now, requested)
    requires w' == w.(sent := w'.sent, hellos := w.hellos + [HelloSent(now, requested)],
                      schedule := AfterHello(config, w.schedule, now), place := Poll)
    ensures SpacingInvariant(config, w')
  {
    AppendHello(config, w.hellos, HelloSent(now, requested));
  }

  lemma {:induction false} AnnouncingKeepsSpacing(config: Config, w: World, ok: bool, packet: Packet)
    requires SpacingInvariant(config, w) && w.place.Announce?
    ensures SpacingInvariant(config, StepWorker(config, w, ok, packet))
  {
    if ok {
      HelloKeepsSpacing(config, w, StepWorker(config, w, ok, packet), w.place.now, w.place.requested);
    }
  }

  /** A requested broadcast is consumed. */
  lemma {:induction false} ConsumingKeepsSpacing(config: Config, w: World, w': World, now: Time)
    requires SpacingInvariant(config, w) && w.place == Choose(now) && ConsumeRequested(config, w.shared, now).1
    requires w' == w.(shared := ConsumeRequested(config, w.shared, now).0, bursts := w.bursts + [Consumed(now)],
                      place := Announce(now, true))
    ensures SpacingInvariant(config, w')
  {
    assert BurstFollows(w.bursts[|w.bursts| - 1], Consumed(now), config.startupInterval);
    AppendBurst(w.bursts, Consumed(now), config.startupInterval);
  }

  lemma {:induction false} ChoosingKeepsSpacing(config: Config, w: World, ok: bool, packet: Packet)
    requires SpacingInvariant(config, w) && w.place.Choose?
    ensures SpacingInvariant(config, StepWorker(config, w, ok, packet))
  {
    var now := w.place.now;
    if now < w.schedule.nextBroadcastAt && ConsumeRequested(config, w.shared, now).1 {
      ConsumingKeepsSpacing(config, w, StepWorker(config, w, ok, packet), now);
    } else {
      SameHistoryKeepsSpacing(config, w, w.(place := StepWorker(config, w, ok, packet).place));
    }
  }

  lemma {:induction false} AskingKeepsSpacing(config: Config, w: World)
    requires SpacingInvariant(config, w)
    ensures SpacingInvariant(config, Step(config, w, RequestCommit))
  {
    AppendBurst(w.bursts, Asked(w.clock), config.startupInterval);
  }

  /** Neither a broadcast nor the burst counter is touched. */
  predicate SameHistory(w: World, w': World) {
    && w'.hellos == w.hellos && w'.bursts == w.bursts && w'.schedule == w.schedule && w.clock <= w'.clock
    && w'.shared.requestedPending == w.shared.requestedPending && w'.shared.requestedAt == w.shared.requestedAt
  }

  /** The time a place carries is the old one or just read from the clock. */
  predicate PlaceFollows(w: World, w': World) {
    match w'.place
    case CheckBroadcast(now) => now == w.clock || w'.place == w.place
    case Choose(now) => w.place == CheckBroadcast(now) || w'.place == w.place
    case Announce(now, requested) => w'.place == w.place || (w.place == Choose(now) && !requested && w.schedule.nextBroadcastAt <= now)
    case _ => true
  }

  lemma {:induction false} OtherWorkerSteps(config: Config, w: World, ok: bool, packet: Packet)
    requires !w.place.Announce? && !w.place.Choose?
    ensures SameHistory(w, StepWorker(config, w, ok, packet)) && PlaceFollows(w, StepWorker(config, w, ok, packet))
  {
  }

  lemma {:induction false} OtherSteps(config: Config, w: World, event: Event)
    requires !event.RequestCommit? && !(event.WorkerStep? && (w.place.Announce? || w.place.Choose?))
    ensures SameHistory(w, Step(config, w, event)) && PlaceFollows(w, Step(config, w, event))
  {
    if event.WorkerStep? { OtherWorkerSteps(config, w, event.ok, event.packet); }
  }

  lemma {:induction false} SameHistoryKeepsSpacing(config: Config, w: World, w': World)
    requires SpacingInvariant(config, w) && SameHistory(w, w') && PlaceFollows(w, w')
    ensures SpacingInvariant(config, w')
  {
  }

  lemma {:induction false} StepKeepsSpacing(config: Config, w: World, event: Event)
    requires SpacingInvariant(config, w)
    ensures SpacingInvariant(config, Step(config, w, event))
  {
    if event.WorkerStep? && w.place.Announce? {
      AnnouncingKeepsSpacing(config, w, event.ok, event.packet);
    } else if event.WorkerStep? && w.place.Choose? {
      ChoosingKeepsSpacing(config, w, event.ok, event.packet);
    } else if event.RequestCommit? {
      AskingKeepsSpacing(config, w);
    } else {
      OtherSteps(config, w, event);
      SameHistoryKeepsSpacing(config, w, Step(config, w, event));
    }
  }

  lemma {:induction false} SpacingOverRun(config: Config, start: Time, events: seq<Event>)
    ensures SpacingInvariant(config, Run(config, start, events))
  {
    if events != [] {
      SpacingOverRun(config, start, events[..|events| - 1]);
      StepKeepsSpacing(config, Run(config, start, events[..|events| - 1]), events[|events| - 1]);
    }
  }

  // ---- Counting in a window ----

  predicate Within(time: Time, from: Time, to: Time) { from <= time <= to }

  function Hellos(hellos: seq<HelloSent>, requested: bool, from: Time, to: Time): nat {
    if hellos == [] then 0
    else
      var last := hellos[|hellos| - 1];
      Hellos(hellos[..|hellos| - 1], requested, from, to)
      + if last.requested == requested && Within(last.time, from, to) then 1 else 0
  }

  function Bursts(bursts: seq<Burst>, consumed: bool, from: Time, to: Time): nat {
    if bursts == [] then 0
    else
      var last := bursts[|bursts| - 1];
      Bursts(bursts[..|bursts| - 1], consumed, from, to)
      + if last.Consumed? == consumed && Within(last.time, from, to) then 1 else 0
  }

  function Decided(place: Place, from: Time, to: Time): nat {
    if place.Announce? && place.requested && Within(place.now, from, to) then 1 else 0
  }

  lemma {:induction false} OneMoreHello(hellos: seq<HelloSent>, hello: HelloSent, requested: bool, from: Time, to: Time)
    ensures Hellos(hellos + [hello], requested, from, to)
         == Hellos(hellos, requested, from, to) + if hello.requested == requested && Within(hello.time, from, to) then 1 else 0
  {
    assert (hellos + [hello])[..|hellos|] == hellos;
  }

  lemma {:induction false} OneMoreBurst(bursts: seq<Burst>, burst: Burst, consumed: bool, from: Time, to: Time)
    ensures Bursts(bursts + [burst], consumed, from, to)
         == Bursts(bursts, consumed, from, to) + if burst.Consumed? == consumed && Within(burst.time, from, to) then 1 else 0
  {
    assert (bursts + [burst])[..|bursts|] == bursts;
  }

  /** The requested hellos sent and the one about to be sent do not outnumber the consumed requests. */
  ghost predicate SendsWhatWasConsumed(w: World, from: Time, to: Time) {
    Hellos(w.hellos, true, from, to) + Decided(w.place, from, to) <= Bursts(w.bursts, true, from, to)
  }

  lemma {:induction false} AnnouncingSendsWhatWasConsumed(config: Config, w: World, ok: bool, packet: Packet,
        from: Time, to: Time)
    requires SendsWhatWasConsumed(w, from, to) && w.place.Announce?
    ensures SendsWhatWasConsumed(StepWorker(config, w, ok, packet), from, to)
  {
    OneMoreHello(w.hellos, HelloSent(w.place.now, w.place.requested), true, from, to);
  }

  /** Only a consumed request makes a requested hello. */
  predicate ChoosesRequested(w: World, w': World) {
    w.place.Choose? && w'.bursts == w.bursts + [Consumed(w.place.now)] && w'.place == Announce(w.place.now, true)
  }

  lemma {:induction false} ChoosingEffect(config: Config, w: World, ok: bool, packet: Packet)
    requires w.place.Choose?
    ensures var w' := StepWorker(config, w, ok, packet);
      && w'.hellos == w.hellos
      && (ChoosesRequested(w, w') || (w'.bursts == w.bursts && !(w'.place.Announce? && w'.place.requested)))
  {
  }

  lemma {:induction false} ChoosingSendsWhatWasConsumed(w: World, w': World, from: Time, to: Time)
    requires SendsWhatWasConsumed(w, from, to) && w.place.Choose? && w'.hellos == w.hellos
    requires ChoosesRequested(w, w') || (w'.bursts == w.bursts && !(w'.place.Announce? && w'.place.requested))
    ensures SendsWhatWasConsumed(w', from, to)
  {
    OneMoreBurst(w.bursts, Consumed(w.place.now), true, from, to);
  }

  lemma {:induction false} StepSendsWhatWasConsumed(config: Config, w: World, event: Event, from: Time, to: Time)
    requires SendsWhatWasConsumed(w, from, to)
    ensures SendsWhatWasConsumed(Step(config, w, event), from, to)
  {
    if event.WorkerStep? && w.place.Announce? {
      AnnouncingSendsWhatWasConsumed(config, w, event.ok, event.packet, from, to);
    } else if event.WorkerStep? && w.place.Choose? {
      ChoosingEffect(config, w, event.ok, event.packet);
      ChoosingSendsWhatWasConsumed(w, Step(config, w, event), from, to);
    } else if event.RequestCommit? {
      OneMoreBurst(w.bursts, Asked(w.clock), true, from, to);
    } else {
      OtherSteps(config, w, event);
    }
  }

  /** Every requested hello that went out had been consumed from the burst counter. */
  lemma {:induction false} RequestedWereConsumed(config: Config, start: Time, events: seq<Event>, from: Time, to: Time)
    ensures SendsWhatWasConsumed(Run(config, start, events), from, to)
  {
    if events != [] {
      RequestedWereConsumed(config, start, events[..|events| - 1], from, to);
      StepSendsWhatWasConsumed(config, Run(config, start, events[..|events| - 1]), events[|events| - 1], from, to);
    }
  }

  lemma {:induction false} DropLastHello(hellos: seq<HelloSent>, m: nat)
    requires HellosSpaced(hellos, m) && hellos != []
    ensures HellosSpaced(hellos[..|hellos| - 1], m)
  {
  }

  lemma {:induction false} DropLastBurst(bursts: seq<Burst>, interval: nat)
    requires BurstsSpaced(bursts, interval) && bursts != []
    ensures BurstsSpaced(bursts[..|bursts| - 1], interval)
  {
  }

  lemma {:induction false} NextMultiple(m: nat, n: int)
    ensures m * (n + 1) == m * n + m
  {
  }

  /** With the last broadcast at `t` in the window, all but one of the scheduled ones fit between its start and `t`. */
  lemma {:induction false} ScheduledUpTo(hellos: seq<HelloSent>, m: nat, from: Time, to: Time)
    requires m > 0 && HellosSpaced(hellos, m) && hellos != [] && hellos[|hellos| - 1].time <= to
    ensures var t, count := hellos[|hellos| - 1].time, Hellos(hellos, false, from, to);
      if t < from then count == 0 else m * (count - 1) <= t - from
  {
    if |hellos| > 1 {
      var front := hellos[..|hellos| - 1];
      assert HelloFollows(hellos[|hellos| - 2], hellos[|hellos| - 1], m);
      DropLastHello(hellos, m);
      ScheduledUpTo(front, m, from, to);
      NextMultiple(m, Hellos(front, false, from, to) - 1);
    } else {
      assert hellos[..0] == [];
    }
  }

  lemma {:induction false} ScheduledBound(hellos: seq<HelloSent>, m: nat, from: Time, to: Time)
    requires m > 0 && HellosSpaced(hellos, m) && from <= to
    ensures m * Hellos(hellos, false, from, to) <= (to - from) + m
  {
    if hellos != [] {
      if hellos[|hellos| - 1].time > to {
        DropLastHello(hellos, m);
        ScheduledBound(hellos[..|hellos| - 1], m, from, to);
      } else {
        ScheduledUpTo(hellos, m, from, to);
        NextMultiple(m, Hellos(hellos, false, from, to) - 1);
      }
    }
  }

  /** A request in the window pays for the one requested broadcast that may follow it at once. */
  lemma {:induction false} ConsumedUpTo(bursts: seq<Burst>, interval: nat, m: nat, from: Time, to: Time)
    requires 0 < m <= interval && BurstsSpaced(bursts, interval) && bursts != [] && bursts[|bursts| - 1].time <= to
    ensures var t, count, asked := bursts[|bursts| - 1].time, Bursts(bursts, true, from, to), Bursts(bursts, false, from, to);
      if t < from then count == 0 && asked == 0
      else m * (count - asked - if bursts[|bursts| - 1].Consumed? then 1 else 0) <= t - from
  {
    if |bursts| > 1 {
      var front := bursts[..|bursts| - 1];
      assert BurstFollows(bursts[|bursts| - 2], bursts[|bursts| - 1], interval);
      DropLastBurst(bursts, interval);
      ConsumedUpTo(front, interval, m, from, to);
      var n := Bursts(front, true, from, to) - Bursts(front, false, from, to);
      NextMultiple(m, n - 1);
    } else {
      assert bursts[..0] == [];
    }
  }

  lemma {:induction false} ConsumedBound(bursts: seq<Burst>, interval: nat, m: nat, from: Time, to: Time)
    requires 0 < m <= interval && BurstsSpaced(bursts, interval) && from <= to
    ensures m * (Bursts(bursts, true, from, to) - Bursts(bursts, false, from, to)) <= (to - from) + m
  {
    if bursts != [] {
      if bursts[|bursts| - 1].time > to {
        DropLastBurst(bursts, interval);
        ConsumedBound(bursts[..|bursts| - 1], interval, m, from, to);
      } else {
        ConsumedUpTo(bursts, interval, m, from, to);
        NextMultiple(m, Bursts(bursts, true, from, to) - Bursts(bursts, false, from, to) - 1);
      }
    }
  }

  lemma {:induction false} SpacedMeansBounded(config: Config, w: World, from: Time, width: nat)
    requires SpacingInvariant(config, w)
    requires Hellos(w.hellos, true, from, from + width) <= Bursts(w.bursts, true, from, from + width)
    ensures RateHolds(w, Shortest(config), from, width)
  {
    var m, to := Shortest(config), from + width;
    ScheduledAreSpaced(config, w.hellos);
    ScheduledBound(w.hellos, m, from, to);
    ConsumedBound(w.bursts, config.startupInterval, m, from, to);
    AddUp(m, Hellos(w.hellos, false, from, to), Hellos(w.hellos, true, from, to), Bursts(w.bursts, true, from, to),
          Bursts(w.bursts, false, from, to), width);
  }

  /** At most 2 * width / m + k + 2 hellos in the window, `k` being the requests in it. */
  ghost predicate RateHolds(w: World, m: nat, from: Time, width: nat) {
    m * (Hellos(w.hellos, false, from, from + width) + Hellos(w.hellos, true, from, from + width))
    <= 2 * width + (Bursts(w.bursts, false, from, from + width) + 2) * m
  }

  /** On every run, in every window of `width` with `k` requests in it, the worker says hello at most
      2 * width / m + k + 2 times, `m` being the smaller of the two intervals. */
  lemma {:induction false} HelloRateIsBounded(config: Config, start: Time, events: seq<Event>, from: Time, width: nat)
    ensures RateHolds(Run(config, start, events), Shortest(config), from, width)
  {
    SpacingOverRun(config, start, events);
    RequestedWereConsumed(config, start, events, from, from + width);
    SpacedMeansBounded(config, Run(config, start, events), from, width);
  }

  lemma {:induction false} AddUp(m: nat, scheduled: nat, requested: nat, consumed: nat, asked: nat, width: nat)
    requires m * scheduled <= width + m && m * (consumed - asked) <= width + m && requested <= consumed
    ensures m * (scheduled + requested) <= 2 * width + (asked + 2) * m
  {
    assert m * (scheduled + requested) == m * scheduled + m * requested;
    assert m * requested <= m * consumed;
    assert m * (consumed - asked) == m * consumed - m * asked;
    assert (asked + 2) * m == m * asked + 2 * m;
  }
}
