/** The store of peer profiles that discovery writes: only changes that matter are saved
    (src/net/discovery_peer_profile.cpp). */
module ProfileStore {
  import opened Prelude
  import opened TextOrder

  datatype Profile = Profile(
    deviceId: string, hostName: string, displayName: string, addresses: seq<string>, tcpPort: nat, appVersion: int,
    unreadMessageCount: int, capabilities: seq<string>, firstSeenAt: string, lastSeenAt: string, avatarSha256: string)

  datatype Announcement = Announcement(
    offline: bool, deviceId: string, hostName: string, displayName: string, tcpPort: nat, appVersion: int,
    capabilities: seq<string>, timestamp: string, avatarSha256: Option<string>)

  /** An announcement and the address it was seen from. */
  datatype Observation = Observation(announcement: Announcement, address: string)

  type Store = map<string, Profile>

  datatype UpsertError = EmptyAddress

  // ---- Addresses ----

  function WithoutRepeats(addresses: seq<string>, merged: seq<string>): seq<string> {
    if addresses == [] then merged
    else WithoutRepeats(addresses[1..], if addresses[0] in merged then merged else merged + [addresses[0]])
  }

  function Merged(existing: seq<string>, observed: string): seq<string> {
    WithoutRepeats(existing, [observed])
  }

  method MergeObservedAddress(existing: seq<string>, observed: string) returns (merged: Result<seq<string>, UpsertError>)
    ensures merged == if observed == "" then Err(EmptyAddress) else Ok(Merged(existing, observed))
  {
    if observed == "" { return Err(EmptyAddress); }
    var result := [observed];
    for i := 0 to |existing|
      invariant result != [] && result[0] == observed
      invariant WithoutRepeats(existing[i..], result) == Merged(existing, observed)
    {
      assert existing[i..][1..] == existing[i + 1..];
      if existing[i] != observed && existing[i] !in result {
        result := result + [existing[i]];
      }
    }
    return Ok(result);
  }

  predicate Distinct(addresses: seq<string>) {
    forall i, j | 0 <= i < j < |addresses| :: addresses[i] != addresses[j]
  }

  lemma {:induction false} WithoutRepeatsKeeps(addresses: seq<string>, merged: seq<string>)
    requires Distinct(merged)
    ensures var r := WithoutRepeats(addresses, merged);
      && Distinct(r) && merged <= r
      && (forall address :: address in r <==> address in merged || address in addresses)
    decreases addresses
  {
    if addresses != [] {
      WithoutRepeatsKeeps(addresses[1..], if addresses[0] in merged then merged else merged + [addresses[0]]);
      assert addresses == [addresses[0]] + addresses[1..];
    }
  }

  lemma {:induction false} NothingToDrop(addresses: seq<string>, merged: seq<string>)
    requires Distinct(merged + addresses)
    ensures WithoutRepeats(addresses, merged) == merged + addresses
    decreases addresses
  {
    if addresses != [] {
      assert merged + addresses == (merged + [addresses[0]]) + addresses[1..];
      forall k | 0 <= k < |merged| ensures merged[k] != addresses[0] {
        assert (merged + addresses)[k] == merged[k] && (merged + addresses)[|merged|] == addresses[0];
      }
      NothingToDrop(addresses[1..], merged + [addresses[0]]);
    }
  }

  /** The observed address comes first, the others follow once each; a list that already starts with it
      and repeats nothing stays as it is. */
  lemma {:induction false} MergedAddresses(existing: seq<string>, observed: string)
    ensures var r := Merged(existing, observed);
      && r != [] && r[0] == observed && Distinct(r)
      && (forall address :: address in r <==> address == observed || address in existing)
      && (existing != [] && existing[0] == observed && Distinct(existing) ==> r == existing)
  {
    WithoutRepeatsKeeps(existing, [observed]);
    if existing != [] && existing[0] == observed && Distinct(existing) {
      assert existing == [observed] + existing[1..];
      NothingToDrop(existing[1..], [observed]);
    }
  }

  // ---- One announcement ----

  predicate IsStale(profile: Profile, a: Announcement, address: string) {
    && profile.deviceId != a.deviceId && profile.hostName == a.hostName
    && address in profile.addresses && AtMost(profile.lastSeenAt, a.timestamp)
  }

  function WithoutStale(store: Store, a: Announcement, address: string): Store {
    map id | id in store && !IsStale(store[id], a, address) :: store[id]
  }

  predicate ShouldIgnore(a: Announcement, profile: Profile) {
    && a.appVersion <= profile.appVersion
    && (Less(a.timestamp, profile.lastSeenAt)
        || (!Less(profile.lastSeenAt, a.timestamp) && (a.avatarSha256.None? || a.avatarSha256.value == profile.avatarSha256)))
  }

  function Created(a: Announcement, address: string): Profile {
    Profile(a.deviceId, a.hostName, a.displayName, [address], a.tcpPort, a.appVersion, 0, a.capabilities, a.timestamp, a.timestamp,
            if a.avatarSha256.Some? then a.avatarSha256.value else "")
  }

  function Updated(profile: Profile, a: Announcement, address: string): Profile {
    Profile(a.deviceId, a.hostName, a.displayName, Merged(profile.addresses, address), a.tcpPort, a.appVersion,
            profile.unreadMessageCount, a.capabilities, profile.firstSeenAt,
            if Less(a.timestamp, profile.lastSeenAt) then profile.lastSeenAt else a.timestamp,
            if a.avatarSha256.Some? then a.avatarSha256.value else profile.avatarSha256)
  }

  /** `hasPersistentDiscoveryChange`: any field but the time last seen. */
  predicate HasPersistentChange(existing: Profile, updated: Profile) {
    || existing.deviceId != updated.deviceId || existing.hostName != updated.hostName
    || existing.displayName != updated.displayName || existing.addresses != updated.addresses
    || existing.tcpPort != updated.tcpPort || existing.appVersion != updated.appVersion
    || existing.unreadMessageCount != updated.unreadMessageCount || existing.capabilities != updated.capabilities
    || existing.firstSeenAt != updated.firstSeenAt || existing.avatarSha256 != updated.avatarSha256
  }

  datatype Upserted = Upserted(store: Store, profile: Result<Profile, UpsertError>)

  function Upsert(store: Store, o: Observation, eager: bool): Upserted {
    var Observation(a, address) := o;
    if a.deviceId !in store then
      var cleared := WithoutStale(store, a, address);
      if address == "" then Upserted(cleared, Err(EmptyAddress))
      else Upserted(cleared[a.deviceId := Created(a, address)], Ok(Created(a, address)))
    else if ShouldIgnore(a, store[a.deviceId]) then Upserted(store, Ok(store[a.deviceId]))
    else if address == "" then Upserted(store, Err(EmptyAddress))
    else
      var updated := Updated(store[a.deviceId], a, address);
      if eager || a.offline || HasPersistentChange(store[a.deviceId], updated)
      then Upserted(WithoutStale(store, a, address)[a.deviceId := updated], Ok(updated))
      else Upserted(store, Ok(updated))
  }

  class PeerProfileStore {
    var profiles: Store

    constructor (profiles: Store)
      ensures this.profiles == profiles
    {
      this.profiles := profiles;
    }

    method RemoveStaleProfilesForAnnouncement(a: Announcement, address: string)
      modifies this
      ensures profiles == WithoutStale(old(profiles), a, address)
    {
      ghost var before := profiles;
      var left := profiles.Keys;
      while left != {}
        invariant left <= profiles.Keys
        invariant profiles == map id | id in before && (id in left || !IsStale(before[id], a, address)) :: before[id]
        decreases left
      {
        var id :| id in left;
        var profile := profiles[id];
        if profile.deviceId == a.deviceId || profile.hostName != a.hostName || address !in profile.addresses
           || Less(a.timestamp, profile.lastSeenAt) {
        } else {
          profiles := profiles - {id};
        }
        left := left - {id};
      }
    }

    method UpsertPeerProfileFromDiscovery(o: Observation) returns (result: Result<Profile, UpsertError>)
      modifies this
      ensures Upserted(profiles, result) == Upsert(old(profiles), o, false)
    {
      var Observation(a, address) := o;
      if a.deviceId !in profiles {
        RemoveStaleProfilesForAnnouncement(a, address);
        var addresses := MergeObservedAddress([], address);
        if addresses.Err? { return Err(addresses.error); }
        var created := Profile(a.deviceId, a.hostName, a.displayName, addresses.value, a.tcpPort, a.appVersion, 0, a.capabilities,
                               a.timestamp, a.timestamp, "");
        if a.avatarSha256.Some? { created := created.(avatarSha256 := a.avatarSha256.value); }
        profiles := profiles[a.deviceId := created];
        return Ok(created);
      }
      var existing := profiles[a.deviceId];
      if ShouldIgnore(a, existing) { return Ok(existing); }
      var addresses := MergeObservedAddress(existing.addresses, address);
      if addresses.Err? { return Err(addresses.error); }
      var updated := Profile(a.deviceId, a.hostName, a.displayName, addresses.value, a.tcpPort, a.appVersion, 0, a.capabilities,
                             existing.firstSeenAt, a.timestamp, "");
      updated := updated.(lastSeenAt := if Less(a.timestamp, existing.lastSeenAt) then existing.lastSeenAt else a.timestamp);
      updated := updated.(unreadMessageCount := existing.unreadMessageCount);
      updated := updated.(avatarSha256 := if a.avatarSha256.Some? then a.avatarSha256.value else existing.avatarSha256);
      if a.offline || HasPersistentChange(existing, updated) {
        RemoveStaleProfilesForAnnouncement(a, address);
        profiles := profiles[a.deviceId := updated];
      }
      return Ok(updated);
    }
  }

  // ---- The lazy store and the eager one ----

  /** The stores after each of the observations, and the profiles returned. */
  function UpsertAll(store: Store, observations: seq<Observation>, eager: bool): Store {
    if observations == [] then store
    else Upsert(UpsertAll(store, observations[..|observations| - 1], eager), observations[|observations| - 1], eager).store
  }

  function Returned(store: Store, observations: seq<Observation>, eager: bool): Result<Profile, UpsertError>
    requires observations != []
  {
    Upsert(UpsertAll(store, observations[..|observations| - 1], eager), observations[|observations| - 1], eager).profile
  }

  /** Equal but for the time last seen of `id`; where those differ, the lazy store has an older one and the
      eager one none after the last timestamp. */
  ghost predicate AgreeBut(lazy: Store, eager: Store, id: string, last: Option<string>) {
    && lazy.Keys == eager.Keys
    && (forall other :: other in lazy && other != id ==> lazy[other] == eager[other])
    && (id in lazy ==>
          && eager[id] == lazy[id].(lastSeenAt := eager[id].lastSeenAt)
          && (eager[id].lastSeenAt == lazy[id].lastSeenAt
              || (last.Some? && AtMost(eager[id].lastSeenAt, last.value) && Less(lazy[id].lastSeenAt, eager[id].lastSeenAt))))
  }

  /** No other profile claims the host name and the address of the announcement. */
  ghost predicate NoCompetitor(store: Store, o: Observation) {
    forall id :: id in store && id != o.announcement.deviceId ==> !Claims(store[id], o)
  }

  predicate Claims(profile: Profile, o: Observation) {
    profile.hostName == o.announcement.hostName && o.address in profile.addresses
  }

  predicate Increasing(observations: seq<Observation>) {
    forall i | 0 < i < |observations| :: Less(observations[i - 1].announcement.timestamp, observations[i].announcement.timestamp)
  }

  ghost predicate KeyedByDevice(store: Store) {
    forall id :: id in store ==> store[id].deviceId == id
  }

  lemma {:induction false} NothingStale(store: Store, o: Observation)
    requires KeyedByDevice(store) && NoCompetitor(store, o)
    ensures WithoutStale(store, o.announcement, o.address) == store
  {
    forall id | id in store ensures !IsStale(store[id], o.announcement, o.address) {
      if id != o.announcement.deviceId { assert !Claims(store[id], o); }
    }
  }

  /** One announcement newer than the last one keeps the stores in agreement and returns the same profile. */
  lemma {:induction false} StepAgrees(lazy: Store, eager: Store, id: string, last: Option<string>, o: Observation)
    requires AgreeBut(lazy, eager, id, last) && o.announcement.deviceId == id
    requires last.Some? ==> Less(last.value, o.announcement.timestamp)
    requires KeyedByDevice(lazy) && KeyedByDevice(eager) && NoCompetitor(lazy, o)
    ensures var l, e := Upsert(lazy, o, false), Upsert(eager, o, true);
      && l.profile == e.profile && AgreeBut(l.store, e.store, id, Some(o.announcement.timestamp))
  {
    var t := o.announcement.timestamp;
    NothingStale(lazy, o);
    assert NoCompetitor(eager, o) by {
      forall other | other in eager && other != id ensures !Claims(eager[other], o) {
        assert lazy[other] == eager[other] && !Claims(lazy[other], o);
      }
    }
    NothingStale(eager, o);
    if id in lazy && lazy[id] != eager[id] {
      NewsAgrees(lazy, eager, last.value, o);
    } else {
      assert lazy == eager;
      SkippingAgrees(lazy, o);
    }
  }

  /** From one store: what the lazy one does not save is the time last seen alone. */
  lemma {:induction false} SkippingAgrees(store: Store, o: Observation)
    requires WithoutStale(store, o.announcement, o.address) == store
    ensures var l, e, t := Upsert(store, o, false), Upsert(store, o, true), o.announcement.timestamp;
      l.profile == e.profile && AgreeBut(l.store, e.store, o.announcement.deviceId, Some(t))
  {
    var t := o.announcement.timestamp;
    LessIsTotal(t, t);
    if o.announcement.deviceId in store {
      LessIsTotal(t, store[o.announcement.deviceId].lastSeenAt);
    }
  }

  /** What news does to one store. */
  lemma {:induction false} NewsTaken(store: Store, o: Observation, eager: bool)
    requires o.announcement.deviceId in store && WithoutStale(store, o.announcement, o.address) == store
    requires Less(store[o.announcement.deviceId].lastSeenAt, o.announcement.timestamp)
    requires !Less(o.announcement.timestamp, store[o.announcement.deviceId].lastSeenAt)
    ensures var id, updated := o.announcement.deviceId, Updated(store[o.announcement.deviceId], o.announcement, o.address);
            && updated.lastSeenAt == o.announcement.timestamp
            && Upsert(store, o, eager)
               == if o.address == "" then Upserted(store, Err(EmptyAddress))
                  else Upserted(
                    if eager || o.announcement.offline || HasPersistentChange(store[id], updated) then store[id := updated] else store,
                    Ok(updated))
  {}

  /** From stores that differ in the time last seen: the announcement is newer than both. */
  lemma {:induction false} NewsAgrees(lazy: Store, eager: Store, last: string, o: Observation)
    requires o.announcement.deviceId in lazy && Less(last, o.announcement.timestamp)
    requires AgreeBut(lazy, eager, o.announcement.deviceId, Some(last))
    requires lazy[o.announcement.deviceId] != eager[o.announcement.deviceId]
    requires WithoutStale(lazy, o.announcement, o.address) == lazy && WithoutStale(eager, o.announcement, o.address) == eager
    ensures var l, e, t := Upsert(lazy, o, false), Upsert(eager, o, true), o.announcement.timestamp;
      l.profile == e.profile && AgreeBut(l.store, e.store, o.announcement.deviceId, Some(t))
  {
    var t, l, e := o.announcement.timestamp, lazy[o.announcement.deviceId].lastSeenAt, eager[o.announcement.deviceId].lastSeenAt;
    Newest(l, e, last, t);
    NewsTaken(lazy, o, false);
    NewsTaken(eager, o, true);
  }

  lemma {:induction false} Newest(l: string, e: string, last: string, t: string)
    requires Less(l, e) && AtMost(e, last) && Less(last, t)
    ensures Less(l, t) && Less(e, t) && !Less(t, l) && !Less(t, e) && AtMost(t, t)
  {
    LessIsTotal(e, last);
    if e != last { LessIsTransitive(e, last, t); }
    LessIsTransitive(l, e, t);
    LessIsTotal(l, t);
    LessIsTotal(e, t);
    LessIsTotal(t, t);
  }

  lemma {:induction false} UpsertKeepsOthers(store: Store, o: Observation, eager: bool)
    requires KeyedByDevice(store)
    ensures var s' := Upsert(store, o, eager).store;
      && KeyedByDevice(s')
      && (forall id :: id in s' && id != o.announcement.deviceId ==> id in store && s'[id] == store[id])
  {
  }

  lemma {:induction false} RunKeepsOthers(store: Store, observations: seq<Observation>, id: string, eager: bool)
    requires KeyedByDevice(store)
    requires forall o <- observations :: o.announcement.deviceId == id
    ensures var s' := UpsertAll(store, observations, eager);
      && KeyedByDevice(s')
      && (forall other :: other in s' && other != id ==> other in store && s'[other] == store[other])
  {
    if observations != [] {
      var front, o := observations[..|observations| - 1], observations[|observations| - 1];
      RunKeepsOthers(store, front, id, eager);
      assert o in observations;
      UpsertKeepsOthers(UpsertAll(store, front, eager), o, eager);
    }
  }

  function LastTimestamp(observations: seq<Observation>): Option<string> {
    if observations == [] then None else Some(observations[|observations| - 1].announcement.timestamp)
  }

  /** For announcements of one device with increasing timestamps and no competing profile, the store that
      saves only what matters agrees with one that always saves on everything but the time last seen, and
      both return the same profile every time. */
  lemma {:induction false} LazyAgreesWithEager(store: Store, observations: seq<Observation>, id: string)
    requires KeyedByDevice(store) && Increasing(observations)
    requires forall o <- observations :: o.announcement.deviceId == id && NoCompetitor(store, o)
    ensures AgreeBut(UpsertAll(store, observations, false), UpsertAll(store, observations, true), id, LastTimestamp(observations))
    ensures observations != [] ==> Returned(store, observations, false) == Returned(store, observations, true)
  {
    if observations != [] {
      var front, o := observations[..|observations| - 1], observations[|observations| - 1];
      LazyAgreesWithEager(store, front, id);
      RunKeepsOthers(store, front, id, false);
      RunKeepsOthers(store, front, id, true);
      assert o in observations;
      var lazy := UpsertAll(store, front, false);
      forall other | other in lazy && other != id ensures !Claims(lazy[other], o) {
        assert !Claims(store[other], o);
      }
      StepAgrees(lazy, UpsertAll(store, front, true), id, LastTimestamp(front), o);
    }
  }

  // ---- Exactly when they agree ----

  /** A profile as the store itself creates and updates it. */
  predicate IsSaved(profile: Profile) {
    profile.addresses != [] && profile.addresses[0] != "" && Distinct(profile.addresses)
  }

  /** Whatever an announcement changes, it leaves such a profile. */
  lemma {:induction false} UpsertSaves(store: Store, o: Observation, eager: bool)
    requires forall id :: id in store ==> IsSaved(store[id])
    ensures forall id :: id in Upsert(store, o, eager).store ==> IsSaved(Upsert(store, o, eager).store[id])
  {
    if o.announcement.deviceId in store { MergedAddresses(store[o.announcement.deviceId].addresses, o.address); }
  }

  /** Equal but for the time last seen of `id`. */
  ghost predicate SameButSeen(lazy: Store, eager: Store, id: string) {
    && lazy.Keys == eager.Keys
    && (forall other :: other in lazy && other != id ==> lazy[other] == eager[other])
    && (id in lazy ==> eager[id] == lazy[id].(lastSeenAt := eager[id].lastSeenAt))
  }

  /** Both stores hold the same but for the time `id` was last seen, and returned the same profile. */
  ghost predicate AgreesAt(store: Store, observations: seq<Observation>, id: string) {
    && SameButSeen(UpsertAll(store, observations, false), UpsertAll(store, observations, true), id)
    && (observations != [] ==> Returned(store, observations, false) == Returned(store, observations, true))
  }

  ghost predicate AgreesThroughout(store: Store, observations: seq<Observation>, id: string) {
    forall n {:trigger observations[..n]} | 0 <= n <= |observations| :: AgreesAt(store, observations[..n], id)
  }

  /** Announcements of one device at these times, with no profile that competes. */
  ghost predicate Observes(store: Store, observations: seq<Observation>, id: string, times: seq<string>) {
    && |observations| == |times|
    && forall k {:trigger observations[k]} | 0 <= k < |times| ::
         && observations[k].announcement.deviceId == id && observations[k].announcement.timestamp == times[k]
         && NoCompetitor(store, observations[k])
  }

  predicate IncreasingTimes(times: seq<string>) {
    forall i | 0 < i < |times| :: Less(times[i - 1], times[i])
  }

  lemma {:induction false} IncreasingAgrees(store: Store, observations: seq<Observation>, id: string, times: seq<string>)
    requires KeyedByDevice(store) && IncreasingTimes(times) && Observes(store, observations, id, times)
    ensures AgreesThroughout(store, observations, id)
  {
    forall n {:trigger observations[..n]} | 0 <= n <= |observations|
      ensures AgreesAt(store, observations[..n], id)
    {
      LazyAgreesWithEager(store, observations[..n], id);
    }
  }

  /** The device says again what is stored. */
  function Heartbeat(profile: Profile, timestamp: string): Observation
    requires IsSaved(profile)
  {
    Observation(Announcement(false, profile.deviceId, profile.hostName, profile.displayName, profile.tcpPort, profile.appVersion,
                             profile.capabilities, timestamp, None),
                profile.addresses[0])
  }

  /** The device has a new display name. */
  function Renaming(profile: Profile, timestamp: string): Observation
    requires IsSaved(profile)
  {
    var Observation(a, address) := Heartbeat(profile, timestamp);
    Observation(a.(displayName := profile.displayName + "!"), address)
  }

  /** Heartbeats, and one renaming. */
  function Witness(profile: Profile, times: seq<string>, i: nat): (observations: seq<Observation>)
    requires IsSaved(profile)
    ensures |observations| == |times|
    ensures forall k {:trigger observations[k]} | 0 <= k < |times| ::
              observations[k] == if k == i then Renaming(profile, times[k]) else Heartbeat(profile, times[k])
  {
    seq(|times|, k requires 0 <= k < |times| => if k == i then Renaming(profile, times[k]) else Heartbeat(profile, times[k]))
  }

  /** A store whose profile `id` was last seen at `seen`. */
  function SeenAt(store: Store, id: string, seen: string): Store
    requires id in store
  {
    store[id := store[id].(lastSeenAt := seen)]
  }

  /** No other profile claims the stored host name and first address of `id`. */
  ghost predicate Unclaimed(store: Store, id: string) {
    id in store && IsSaved(store[id]) && NoCompetitor(store, Heartbeat(store[id], ""))
  }

  lemma {:induction false} HeartbeatSaved(store: Store, id: string, seen: string, t: string)
    requires KeyedByDevice(store) && Unclaimed(store, id) && Less(seen, t)
    ensures Upsert(SeenAt(store, id, seen), Heartbeat(store[id], t), true).store == SeenAt(store, id, t)
  {
    var s, o := SeenAt(store, id, seen), Heartbeat(store[id], t);
    MergedAddresses(store[id].addresses, o.address);
    LessIsTotal(seen, t);
    forall other | other in s && other != id
      ensures !Claims(s[other], o)
    {
      assert !Claims(store[other], Heartbeat(store[id], ""));
    }
    NothingStale(s, o);
  }

  lemma {:induction false} HeartbeatSkipped(store: Store, id: string, t: string)
    requires KeyedByDevice(store) && Unclaimed(store, id)
    ensures Upsert(store, Heartbeat(store[id], t), false).store == store
  {
    MergedAddresses(store[id].addresses, store[id].addresses[0]);
  }

  lemma {:induction false} HeartbeatsPass(store: Store, id: string, times: seq<string>, i: nat, n: nat)
    requires KeyedByDevice(store) && Unclaimed(store, id) && n <= i < |times|
    requires forall k | 0 <= k < |times| :: Less(store[id].lastSeenAt, times[k])
    requires forall k | 0 < k < i :: Less(times[k - 1], times[k])
    ensures UpsertAll(store, Witness(store[id], times, i)[..n], false) == store
    ensures UpsertAll(store, Witness(store[id], times, i)[..n], true)
         == SeenAt(store, id, if n == 0 then store[id].lastSeenAt else times[n - 1])
  {
    if n == 0 {
      assert store == SeenAt(store, id, store[id].lastSeenAt);
    } else {
      var front, o := Witness(store[id], times, i)[..n - 1], Heartbeat(store[id], times[n - 1]);
      HeartbeatsPass(store, id, times, i, n - 1);
      assert Witness(store[id], times, i)[..n] == front + [o];
      UpsertLast(store, front, o, false);
      UpsertLast(store, front, o, true);
      HeartbeatSkipped(store, id, times[n - 1]);
      HeartbeatSaved(store, id, if n == 1 then store[id].lastSeenAt else times[n - 2], times[n - 1]);
    }
  }

  /** The lazy store takes the new name, the eager one has seen the device at that time or later. */
  lemma {:induction false} RenamingParts(store: Store, id: string, seen: string, t: string)
    requires KeyedByDevice(store) && Unclaimed(store, id) && Less(store[id].lastSeenAt, t) && !Less(seen, t)
    ensures var o := Renaming(store[id], t);
            && id in Upsert(store, o, false).store && id in Upsert(SeenAt(store, id, seen), o, true).store
            && Upsert(store, o, false).store[id].displayName != Upsert(SeenAt(store, id, seen), o, true).store[id].displayName
  {
    LessIsTotal(store[id].lastSeenAt, t);
    assert |store[id].displayName + "!"| == |store[id].displayName| + 1;
  }

  lemma {:induction false} WitnessObserves(store: Store, id: string, times: seq<string>, i: nat)
    requires KeyedByDevice(store) && Unclaimed(store, id)
    ensures Observes(store, Witness(store[id], times, i), id, times)
  {
    var o := Witness(store[id], times, i);
    forall k {:trigger o[k]} | 0 <= k < |times|
      ensures NoCompetitor(store, o[k])
    {
      forall other | other in store && other != id
        ensures !Claims(store[other], o[k])
      {
        assert !Claims(store[other], Heartbeat(store[id], ""));
      }
    }
  }

  lemma {:induction false} FirstNonIncrease(times: seq<string>) returns (i: nat)
    requires !IncreasingTimes(times)
    ensures 0 < i < |times| && !Less(times[i - 1], times[i]) && forall k | 0 < k < i :: Less(times[k - 1], times[k])
  {
    i := 1;
    while Less(times[i - 1], times[i])
      invariant 0 < i < |times| && forall k | 0 < k < i :: Less(times[k - 1], times[k])
      decreases |times| - i
    {
      i := i + 1;
    }
  }

  lemma {:induction false} UpsertLast(store: Store, observations: seq<Observation>, o: Observation, eager: bool)
    ensures UpsertAll(store, observations + [o], eager) == Upsert(UpsertAll(store, observations, eager), o, eager).store
  {
    assert (observations + [o])[..|observations|] == observations;
  }

  lemma {:induction false} PrefixParts(store: Store, id: string, front: seq<Observation>, seen: string, t: string)
    requires KeyedByDevice(store) && Unclaimed(store, id) && Less(store[id].lastSeenAt, t) && !Less(seen, t)
    requires UpsertAll(store, front, false) == store && UpsertAll(store, front, true) == SeenAt(store, id, seen)
    ensures !AgreesAt(store, front + [Renaming(store[id], t)], id)
  {
    UpsertLast(store, front, Renaming(store[id], t), false);
    UpsertLast(store, front, Renaming(store[id], t), true);
    RenamingParts(store, id, seen, t);
  }

  lemma {:induction false} WitnessPrefix(profile: Profile, times: seq<string>, i: nat)
    requires IsSaved(profile) && i < |times|
    ensures Witness(profile, times, i)[..i + 1] == Witness(profile, times, i)[..i] + [Renaming(profile, times[i])]
  {}

  lemma {:induction false} NonIncreaseParts(store: Store, id: string, times: seq<string>) returns (observations: seq<Observation>)
    requires KeyedByDevice(store) && Unclaimed(store, id) && !IncreasingTimes(times)
    requires forall k | 0 <= k < |times| :: Less(store[id].lastSeenAt, times[k])
    ensures Observes(store, observations, id, times) && !AgreesThroughout(store, observations, id)
  {
    var i := FirstNonIncrease(times);
    observations := Witness(store[id], times, i);
    WitnessObserves(store, id, times, i);
    HeartbeatsPass(store, id, times, i, i);
    PrefixParts(store, id, observations[..i], times[i - 1], times[i]);
    WitnessPrefix(store[id], times, i);
    assert !AgreesAt(store, observations[..i + 1], id);
  }

  /** When every announcement is newer than what is stored, the store that saves only what matters agrees with
      the one that always saves, whatever the device announces at those times, if and only if the times
      strictly increase. */
  lemma {:induction false} LazyAgreesIff(store: Store, id: string, times: seq<string>)
    requires KeyedByDevice(store) && Unclaimed(store, id)
    requires forall k | 0 <= k < |times| :: Less(store[id].lastSeenAt, times[k])
    ensures (forall observations | Observes(store, observations, id, times) :: AgreesThroughout(store, observations, id))
       <==> IncreasingTimes(times)
  {
    if IncreasingTimes(times) {
      forall observations | Observes(store, observations, id, times)
        ensures AgreesThroughout(store, observations, id)
      {
        IncreasingAgrees(store, observations, id, times);
      }
    } else {
      var observations := NonIncreaseParts(store, id, times);
    }
  }

  // ---- The time last seen ----

  /** In any order of announcements, the stored time last seen of a profile that stays never goes back. */
  lemma {:induction false} LastSeenNeverGoesBack(store: Store, observations: seq<Observation>, id: string, j: nat,
        k: nat)
    requires j <= k <= |observations|
    requires forall n | j <= n <= k :: id in UpsertAll(store, observations[..n], false)
    ensures AtMost(UpsertAll(store, observations[..j], false)[id].lastSeenAt,
                   UpsertAll(store, observations[..k], false)[id].lastSeenAt)
    decreases k - j
  {
    if j == k {
      LessIsTotal(UpsertAll(store, observations[..k], false)[id].lastSeenAt, UpsertAll(store, observations[..k], false)[id].lastSeenAt);
    } else {
      LastSeenNeverGoesBack(store, observations, id, j, k - 1);
      assert observations[..k][..k - 1] == observations[..k - 1];
      StepKeepsLastSeen(UpsertAll(store, observations[..k - 1], false), observations[k - 1], id);
      AtMostIsTransitive(UpsertAll(store, observations[..j], false)[id].lastSeenAt,
                         UpsertAll(store, observations[..k - 1], false)[id].lastSeenAt,
                         UpsertAll(store, observations[..k], false)[id].lastSeenAt);
    }
  }

  lemma {:induction false} StepKeepsLastSeen(store: Store, o: Observation, id: string)
    requires id in store && id in Upsert(store, o, false).store
    ensures AtMost(store[id].lastSeenAt, Upsert(store, o, false).store[id].lastSeenAt)
  {
    LessIsTotal(store[id].lastSeenAt, store[id].lastSeenAt);
    LessIsTotal(o.announcement.timestamp, store[id].lastSeenAt);
  }

  // ---- What an announcement leaves ----

  /** It comes from an unknown device, raises the version, is later than the profile, or as late with another
      avatar. */
  predicate IsNews(store: Store, a: Announcement) {
    a.deviceId in store ==>
      var known := store[a.deviceId];
      || known.appVersion < a.appVersion
      || Less(known.lastSeenAt, a.timestamp)
      || (known.lastSeenAt == a.timestamp && a.avatarSha256.Some? && a.avatarSha256.value != known.avatarSha256)
  }

  /** What the device says of itself now, at the observed address first. */
  predicate CarriesNews(p: Profile, o: Observation) {
    var a := o.announcement;
    && p.deviceId == a.deviceId && p.hostName == a.hostName && p.displayName == a.displayName && p.tcpPort == a.tcpPort
    && p.appVersion == a.appVersion && p.capabilities == a.capabilities
    && p.addresses != [] && p.addresses[0] == o.address && Distinct(p.addresses)
    && (a.avatarSha256.Some? ==> p.avatarSha256 == a.avatarSha256.value)
    && AtMost(a.timestamp, p.lastSeenAt)
  }

  /** What the store knew before is not lost. */
  ghost predicate KeepsKnown(p: Profile, known: Profile, o: Observation) {
    && p.firstSeenAt == known.firstSeenAt && p.unreadMessageCount == known.unreadMessageCount
    && AtMost(known.lastSeenAt, p.lastSeenAt) && p.lastSeenAt in {known.lastSeenAt, o.announcement.timestamp}
    && (o.announcement.avatarSha256.None? ==> p.avatarSha256 == known.avatarSha256)
    && (forall address :: address in p.addresses <==> address == o.address || address in known.addresses)
  }

  predicate IsNewcomer(p: Profile, o: Observation) {
    && p.firstSeenAt == p.lastSeenAt == o.announcement.timestamp && p.unreadMessageCount == 0 && p.addresses == [o.address]
    && (o.announcement.avatarSha256.None? ==> p.avatarSha256 == "")
  }

  lemma {:induction false} IgnoredIff(store: Store, a: Announcement)
    requires a.deviceId in store
    ensures ShouldIgnore(a, store[a.deviceId]) <==> !IsNews(store, a)
  {
    LessIsTotal(a.timestamp, store[a.deviceId].lastSeenAt);
  }

  /** An announcement that is no news changes nothing and returns what is known; news without an address is
      refused; any other news gives a profile that carries it and keeps what was known. */
  lemma {:induction false} NewsGives(store: Store, o: Observation, eager: bool)
    ensures var a, u := o.announcement, Upsert(store, o, eager);
      if !IsNews(store, a) then u == Upserted(store, Ok(store[a.deviceId]))
      else if o.address == "" then u.profile == Err(EmptyAddress)
      else
        && u.profile.Ok? && CarriesNews(u.profile.value, o)
        && if a.deviceId in store then KeepsKnown(u.profile.value, store[a.deviceId], o) else IsNewcomer(u.profile.value, o)
  {
    var a := o.announcement;
    LessIsTotal(a.timestamp, a.timestamp);
    if a.deviceId in store {
      IgnoredIff(store, a);
      LessIsTotal(a.timestamp, store[a.deviceId].lastSeenAt);
      LessIsTotal(store[a.deviceId].lastSeenAt, store[a.deviceId].lastSeenAt);
      MergedAddresses(store[a.deviceId].addresses, o.address);
    }
  }

  /** The store holds the profile that news gave, save that the lazy one may keep the old time last seen. */
  lemma {:induction false} NewsIsStored(store: Store, o: Observation, eager: bool)
    requires IsNews(store, o.announcement) && o.address != ""
    ensures var id, u := o.announcement.deviceId, Upsert(store, o, eager);
      && id in u.store && u.profile.Ok?
      && u.store[id] == (if eager || o.announcement.offline || id !in store then u.profile.value
                         else u.profile.value.(lastSeenAt := u.store[id].lastSeenAt))
      && u.store[id].lastSeenAt in {u.profile.value.lastSeenAt} + if id in store then {store[id].lastSeenAt} else {}
  {
    if o.announcement.deviceId in store { IgnoredIff(store, o.announcement); }
  }

  /** Another profile under the same host name, at the same address and not seen later. */
  predicate IsReplacedBy(profile: Profile, o: Observation) {
    Claims(profile, o) && AtMost(profile.lastSeenAt, o.announcement.timestamp)
  }

  /** No other profile comes or changes; those that the announcement replaces go if the device is new to the
      store or its profile is written, and only then. */
  lemma {:induction false} OthersAfter(store: Store, o: Observation, eager: bool, other: string)
    requires KeyedByDevice(store) && other != o.announcement.deviceId
    ensures var id, u := o.announcement.deviceId, Upsert(store, o, eager);
      && (other in u.store ==> other in store && u.store[other] == store[other])
      && (other in store && !IsReplacedBy(store[other], o) ==> other in u.store)
      && (other in store && IsReplacedBy(store[other], o) && (id !in store || (id in u.store && u.store[id] != store[id])) ==>
            other !in u.store)
      && (id in store && !IsNews(store, o.announcement) ==> u.store == store)
  {
    if o.announcement.deviceId in store { IgnoredIff(store, o.announcement); }
  }
}
