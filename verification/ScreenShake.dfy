/** The limiter of screen shakes, used with the configured cooldown by the sender and with half a second
    less by the receiver (src/main/app_runtime.cpp). Times are in milliseconds. */
module ScreenShake {

  const TOLERANCE := 500
  const MAX_COOLDOWN_ENTRIES := 256
  const MAX_PENDING_REQUESTS := 32

  type Time = nat
  type Cooldowns = map<string, Time>

  // ---- The limiter ----

  predicate Expired(start: Time, now: Time, interval: nat) {
    now >= start + interval
  }

  function Live(cooldowns: Cooldowns, now: Time, interval: nat): Cooldowns {
    map id | id in cooldowns && !Expired(cooldowns[id], now, interval) :: cooldowns[id]
  }

  function TryStart(cooldowns: Cooldowns, id: string, now: Time, interval: nat): (Cooldowns, bool) {
    if id == "" then (cooldowns, false)
    else
      var live := Live(cooldowns, now, interval);
      if id in live || |live| >= MAX_COOLDOWN_ENTRIES then (live, false) else (live[id := now], true)
  }

  function IncomingInterval(configured: nat): nat {
    if configured > TOLERANCE then configured - TOLERANCE else 0
  }

  /** A call leaves exactly the cooldowns that still run, and the one it starts. */
  lemma {:induction false} CallLeaves(cooldowns: Cooldowns, id: string, now: Time, interval: nat, other: string)
    requires id != ""
    ensures var (after, started) := TryStart(cooldowns, id, now, interval);
      if other == id && started then other in after && after[other] == now
      else
        && (other in after <==> other in cooldowns && now < cooldowns[other] + interval)
        && (other in after ==> after[other] == cooldowns[other])
  {
  }

  method TryStartScreenShakeCooldown(cooldowns: Cooldowns, id: string, now: Time, interval: nat)
    returns (cooldowns': Cooldowns, started: bool)
    ensures (cooldowns', started) == TryStart(cooldowns, id, now, interval)
  {
    cooldowns' := cooldowns;
    if id == "" { return cooldowns', false; }
    var left := cooldowns'.Keys;
    while left != {}
      invariant left <= cooldowns'.Keys
      invariant cooldowns' == map other | other in cooldowns && (other in left || !Expired(cooldowns[other], now, interval)) :: cooldowns[other]
      decreases left
    {
      var other :| other in left;
      if now >= cooldowns'[other] + interval {
        cooldowns' := cooldowns' - {other};
      }
      left := left - {other};
    }
    assert cooldowns' == Live(cooldowns, now, interval);
    if id in cooldowns' || |cooldowns'| >= MAX_COOLDOWN_ENTRIES { return cooldowns', false; }
    cooldowns' := cooldowns'[id := now];
    return cooldowns', true;
  }

  class ScreenShakes {
    var incoming: Cooldowns
    var outgoing: Cooldowns
    var cooldownMilliseconds: nat
    var pending: seq<string>

    ghost predicate Valid()
      reads this
    {
      |incoming| <= MAX_COOLDOWN_ENTRIES && |outgoing| <= MAX_COOLDOWN_ENTRIES && |pending| <= MAX_PENDING_REQUESTS
    }

    constructor (cooldownMilliseconds: nat)
      ensures Valid() && incoming == map[] && outgoing == map[] && pending == []
      ensures this.cooldownMilliseconds == cooldownMilliseconds
    {
      incoming, outgoing, pending := map[], map[], [];
      this.cooldownMilliseconds := cooldownMilliseconds;
    }

    method TryStartOutgoing(id: string, now: Time) returns (started: bool)
      requires Valid()
      modifies this`outgoing
      ensures Valid()
      ensures (outgoing, started) == TryStart(old(outgoing), id, now, cooldownMilliseconds)
    {
      TryStartKeepsSize(outgoing, id, now, cooldownMilliseconds);
      outgoing, started := TryStartScreenShakeCooldown(outgoing, id, now, cooldownMilliseconds);
    }

    /** A shake that passes the limiter is still dropped when the queue is full. */
    method EnqueueIncoming(id: string, now: Time)
      requires Valid()
      modifies this`incoming, this`pending
      ensures Valid()
      ensures var (after, started) := TryStart(old(incoming), id, now, IncomingInterval(cooldownMilliseconds));
        && incoming == after
        && pending == if started && |old(pending)| < 32 then old(pending) + [id] else old(pending)
    {
      var interval := if cooldownMilliseconds > TOLERANCE then cooldownMilliseconds - TOLERANCE else 0;
      TryStartKeepsSize(incoming, id, now, interval);
      var started;
      incoming, started := TryStartScreenShakeCooldown(incoming, id, now, interval);
      if !started { return; }
      if |pending| >= MAX_PENDING_REQUESTS { return; }
      pending := pending + [id];
    }
  }

  lemma {:induction false} LiveIsSmaller(cooldowns: Cooldowns, now: Time, interval: nat)
    ensures |Live(cooldowns, now, interval)| <= |cooldowns|
  {
    var live := Live(cooldowns, now, interval);
    assert live.Keys <= cooldowns.Keys;
    SubsetIsSmaller(live.Keys, cooldowns.Keys);
  }

  lemma {:induction false} SubsetIsSmaller(a: set<string>, b: set<string>)
    requires a <= b
    ensures |a| <= |b|
  {
    assert |b - a| == |b| - |a|;
  }

  lemma {:induction false} TryStartKeepsSize(cooldowns: Cooldowns, id: string, now: Time, interval: nat)
    requires |cooldowns| <= MAX_COOLDOWN_ENTRIES
    ensures |TryStart(cooldowns, id, now, interval).0| <= 256
  {
    LiveIsSmaller(cooldowns, now, interval);
    var live := Live(cooldowns, now, interval);
    if id !in live {
      assert live[id := now].Keys == live.Keys + {id};
    }
  }

  // ---- Runs of one limiter ----

  /** One call; the interval may change between calls. */
  datatype Attempt = Attempt(id: string, now: Time, interval: nat)

  function After(attempts: seq<Attempt>, n: nat): Cooldowns
    requires n <= |attempts|
  {
    if n == 0 then map[] else TryStart(After(attempts, n - 1), attempts[n - 1].id, attempts[n - 1].now, attempts[n - 1].interval).0
  }

  predicate Accepted(attempts: seq<Attempt>, k: nat)
    requires k < |attempts|
  {
    TryStart(After(attempts, k), attempts[k].id, attempts[k].now, attempts[k].interval).1
  }

  predicate Monotone(attempts: seq<Attempt>) {
    forall i, j | 0 <= i < j < |attempts| :: attempts[i].now <= attempts[j].now
  }

  lemma {:induction false} MapStaysSmall(attempts: seq<Attempt>, n: nat)
    requires n <= |attempts|
    ensures |After(attempts, n)| <= 256
  {
    if n > 0 {
      MapStaysSmall(attempts, n - 1);
      TryStartKeepsSize(After(attempts, n - 1), attempts[n - 1].id, attempts[n - 1].now, attempts[n - 1].interval);
    }
  }

  /** One call drops the entry of another device only when that has expired, and never moves one back. */
  lemma {:induction false} TryStartKeepsOrExpires(cooldowns: Cooldowns, id: string, now: Time, interval: nat, other: string,
        start: Time)
    requires other in cooldowns && cooldowns[other] >= start
    ensures var after := TryStart(cooldowns, id, now, interval).0;
      now >= start ==> (other in after && after[other] >= start) || now >= start + interval
  {
  }

  /** An accepted shake keeps its entry until the interval has passed. */
  lemma {:induction false} KeptOrExpired(attempts: seq<Attempt>, i: nat, n: nat, least: nat)
    requires Monotone(attempts) && i < n <= |attempts| && Accepted(attempts, i)
    requires forall k | i < k < n :: attempts[k].interval >= least
    ensures var id, start := attempts[i].id, attempts[i].now;
      (id in After(attempts, n) && After(attempts, n)[id] >= start) || attempts[n - 1].now >= start + least
    decreases n
  {
    if n > i + 1 {
      var id, start, last := attempts[i].id, attempts[i].now, attempts[n - 1];
      KeptOrExpired(attempts, i, n - 1, least);
      assert last.interval >= least && attempts[n - 2].now <= last.now && start <= last.now;
      if id in After(attempts, n - 1) && After(attempts, n - 1)[id] >= start {
        TryStartKeepsOrExpires(After(attempts, n - 1), last.id, last.now, last.interval, id, start);
      }
    }
  }

  /** On any run with a monotone clock, two accepted shakes of one device are at least the interval apart,
      or the smallest of them if the setting changed in between. */
  lemma {:induction false} AcceptedAreSpaced(attempts: seq<Attempt>, i: nat, j: nat, least: nat)
    requires Monotone(attempts) && i < j < |attempts|
    requires Accepted(attempts, i) && Accepted(attempts, j) && attempts[i].id == attempts[j].id
    requires forall k | i < k <= j :: attempts[k].interval >= least
    ensures attempts[j].now >= attempts[i].now + least
  {
    KeptOrExpired(attempts, i, j, least);
    assert attempts[j].interval >= least && attempts[j - 1].now <= attempts[j].now;
  }

  /** Every entry comes from an earlier call for the same device. */
  lemma {:induction false} EntryHasOrigin(attempts: seq<Attempt>, n: nat, id: string) returns (i: nat)
    requires n <= |attempts| && id in After(attempts, n)
    ensures i < n && attempts[i].id == id && attempts[i].now == After(attempts, n)[id]
    decreases n
  {
    var last := attempts[n - 1];
    var before := After(attempts, n - 1);
    if last.id == id && TryStart(before, id, last.now, last.interval).1 {
      i := n - 1;
    } else {
      i := EntryHasOrigin(attempts, n - 1, id);
    }
  }

  /** What a limiter with room never refuses: calls for a device that are spaced by the interval. */
  lemma {:induction false} SpacedArePermitted(attempts: seq<Attempt>, k: nat)
    requires k < |attempts| && attempts[k].id != ""
    requires forall i | 0 <= i < k && attempts[i].id == attempts[k].id :: attempts[k].now >= attempts[i].now + attempts[k].interval
    requires |Live(After(attempts, k), attempts[k].now, attempts[k].interval)| < 256
    ensures Accepted(attempts, k)
  {
    var id := attempts[k].id;
    if id in After(attempts, k) {
      var i := EntryHasOrigin(attempts, k, id);
    }
  }

  // ---- Sender and receiver ----

  /** The receiver's tolerance is half a second: accepted shakes are no closer than that below the cooldown. */
  lemma {:induction false} ReceivedAreSpaced(received: seq<Attempt>, j: nat, k: nat, cooldown: nat)
    requires Monotone(received) && j < k < |received| && Accepted(received, j) && Accepted(received, k)
    requires received[j].id == received[k].id && forall i | 0 <= i < |received| :: received[i].interval == IncomingInterval(cooldown)
    ensures received[k].now >= received[j].now + cooldown - 500
  {
    AcceptedAreSpaced(received, j, k, IncomingInterval(cooldown));
  }

  ghost predicate EachFrom(attempts: seq<Attempt>, id: string, positions: seq<nat>) {
    && (forall k | 0 <= k < |positions| :: positions[k] < |attempts| && attempts[positions[k]].id == id)
    && (forall i | 0 <= i < |attempts| && attempts[i].id == id :: i in positions)
  }

  /** The time from the sender's call to the receiver's, clock difference included. */
  function Delay(sent: Attempt, received: Attempt): int {
    received.now - sent.now
  }

  ghost predicate SteadyDelays(sent: seq<Attempt>, s: seq<nat>, received: seq<Attempt>, r: seq<nat>)
    requires |s| == |r|
    requires forall k | 0 <= k < |s| :: s[k] < |sent| && r[k] < |received|
  {
    forall j, k | 0 <= j < |s| && 0 <= k < |s| ::
      Delay(sent[s[j]], received[r[j]]) <= Delay(sent[s[k]], received[r[k]]) + 500
  }

  /** Two calls the sender was permitted, and how far apart the receiver sees them. */
  lemma {:induction false} ArriveApart(sent: seq<Attempt>, s: seq<nat>, received: seq<Attempt>, r: seq<nat>, receiver: string,
        cooldown: nat, j: nat, k: nat)
    requires Monotone(sent) && |s| == |r| && j < |s| && k < |s|
    requires forall i | 0 <= i < |sent| :: sent[i].interval == cooldown
    requires forall i | 0 <= i < |s| :: s[i] < |sent| && r[i] < |received| && sent[s[i]].id == receiver && Accepted(sent, s[i])
    requires s[j] < s[k] && SteadyDelays(sent, s, received, r)
    ensures received[r[k]].now >= received[r[j]].now + cooldown - 500
  {
    AcceptedAreSpaced(sent, s[j], s[k], cooldown);
    assert Delay(sent[s[j]], received[r[j]]) <= Delay(sent[s[k]], received[r[k]]) + 500;
  }

  lemma {:induction false} EarlierIsApart(sent: seq<Attempt>, s: seq<nat>, received: seq<Attempt>, r: seq<nat>, receiver: string,
        cooldown: nat, j: nat, k: nat)
    requires Monotone(sent) && Monotone(received) && |s| == |r| && j < |s| && k < |s| && r[j] < r[k] < |received|
    requires forall i | 0 <= i < |sent| :: sent[i].interval == cooldown
    requires forall i | 0 <= i < |s| :: s[i] < |sent| && r[i] < |received| && sent[s[i]].id == receiver && Accepted(sent, s[i])
    requires s[j] != s[k] && SteadyDelays(sent, s, received, r)
    ensures received[r[k]].now >= received[r[j]].now + IncomingInterval(cooldown)
  {
    if s[j] < s[k] {
      ArriveApart(sent, s, received, r, receiver, cooldown, j, k);
    } else {
      ArriveApart(sent, s, received, r, receiver, cooldown, k, j);
    }
    assert received[r[j]].now <= received[r[k]].now;
  }

  /** The sender's calls `s` for the receiver were permitted and arrive as the receiver's calls `r`, nothing
      else comes from the sender, both sides have the same cooldown and the delays differ by at most
      500 ms: then the receiver permits each of them, as long as its map has room. */
  lemma {:induction false} ToleranceLetsThrough(
      sent: seq<Attempt>, s: seq<nat>, received: seq<Attempt>, r: seq<nat>, sender: string, receiver: string, cooldown: nat, k: nat)
    requires Monotone(sent) && Monotone(received) && sender != "" && |s| == |r| && k < |s|
    requires forall i | 0 <= i < |sent| :: sent[i].interval == cooldown
    requires forall i | 0 <= i < |received| :: received[i].interval == IncomingInterval(cooldown)
    requires forall j | 0 <= j < |s| :: s[j] < |sent| && sent[s[j]].id == receiver && Accepted(sent, s[j])
    requires forall i, j | 0 <= i < j < |s| :: s[i] < s[j]
    requires EachFrom(received, sender, r) && SteadyDelays(sent, s, received, r)
    requires |Live(After(received, r[k]), received[r[k]].now, IncomingInterval(cooldown))| < 256
    ensures Accepted(received, r[k])
  {
    forall i | 0 <= i < r[k] && received[i].id == sender
      ensures received[r[k]].now >= received[i].now + IncomingInterval(cooldown)
    {
      var j :| 0 <= j < |r| && r[j] == i;
      assert j < k || k < j;
      EarlierIsApart(sent, s, received, r, receiver, cooldown, j, k);
    }
    SpacedArePermitted(received, r[k]);
  }
}
