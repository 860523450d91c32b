/** The list of peers the window shows: unique, sorted by five keys and kept online by announcements
    (src/main/app_runtime.cpp). Times are in milliseconds; `NEVER` is the clock's epoch. */
module PeerList {
  import opened Prelude
  import opened TextOrder
  import opened ProfileStore

  const NEVER := 0
  const ONLINE_TIMEOUT := 90000

  type Time = nat

  datatype Peer = Peer(
    deviceId: string, displayName: string, hostName: string, address: string, lastSeenAt: string, lastConversationAt: string,
    unreadMessageCount: int, tcpPort: nat, appVersion: int, lastOnlineSignalAt: Time, online: bool)

  // ---- The order ----

  function SortName(peer: Peer): string {
    if peer.displayName != "" then peer.displayName
    else if peer.hostName != "" then peer.hostName
    else if peer.address != "" then peer.address
    else peer.deviceId
  }

  /** `isPeerListItemBefore`: online first, then the latest conversation, the latest sign of life, the name
      and the device id. */
  predicate Before(left: Peer, right: Peer) {
    if left.online != right.online then left.online
    else if left.lastConversationAt != right.lastConversationAt then Less(right.lastConversationAt, left.lastConversationAt)
    else if left.lastSeenAt != right.lastSeenAt then Less(right.lastSeenAt, left.lastSeenAt)
    else if SortName(left) != SortName(right) then Less(SortName(left), SortName(right))
    else Less(left.deviceId, right.deviceId)
  }

  lemma {:induction false} BeforeIsTotal(a: Peer, b: Peer)
    ensures !(Before(a, b) && Before(b, a)) && (a.deviceId != b.deviceId ==> Before(a, b) || Before(b, a))
  {
    LessIsTotal(a.lastConversationAt, b.lastConversationAt);
    LessIsTotal(a.lastSeenAt, b.lastSeenAt);
    LessIsTotal(SortName(a), SortName(b));
    LessIsTotal(a.deviceId, b.deviceId);
  }

  /** One key of a lexicographic order: transitive where it decides. */
  lemma {:induction false} KeyIsTransitive(a: string, b: string, c: string)
    ensures Less(a, b) && Less(b, c) ==> Less(a, c) && a != c
    ensures !Less(a, a) && (Less(a, b) ==> a != b && !Less(b, a))
  {
    LessIsTotal(a, a);
    LessIsTotal(a, b);
    if Less(a, b) && Less(b, c) {
      LessIsTransitive(a, b, c);
      LessIsTotal(a, c);
    }
  }

  lemma {:induction false} BeforeIsTransitive(a: Peer, b: Peer, c: Peer)
    requires Before(a, b) && Before(b, c)
    ensures Before(a, c)
  {
    KeyIsTransitive(c.lastConversationAt, b.lastConversationAt, a.lastConversationAt);
    KeyIsTransitive(c.lastSeenAt, b.lastSeenAt, a.lastSeenAt);
    KeyIsTransitive(SortName(a), SortName(b), SortName(c));
    KeyIsTransitive(a.deviceId, b.deviceId, c.deviceId);
  }

  // ---- Lists ----

  function Ids(peers: seq<Peer>): set<string> {
    set peer | peer in peers :: peer.deviceId
  }

  ghost predicate Unique(peers: seq<Peer>) {
    peers == [] || (peers[0].deviceId !in Ids(peers[1..]) && Unique(peers[1..]))
  }

  ghost predicate Sorted(peers: seq<Peer>) {
    peers == [] || ((forall peer <- peers[1..] :: Before(peers[0], peer)) && Sorted(peers[1..]))
  }

  lemma {:induction false} HeadAndTail(peers: seq<Peer>)
    requires peers != []
    ensures peers == [peers[0]] + peers[1..]
    ensures multiset(peers) == multiset{peers[0]} + multiset(peers[1..])
    ensures Ids(peers) == {peers[0].deviceId} + Ids(peers[1..])
    ensures forall peer :: peer in peers <==> peer == peers[0] || peer in peers[1..]
  {
    assert peers == [peers[0]] + peers[1..];
  }

  function Insert(peer: Peer, peers: seq<Peer>): seq<Peer> {
    if peers == [] || Before(peer, peers[0]) then [peer] + peers else [peers[0]] + Insert(peer, peers[1..])
  }

  /** `std::stable_sort` with the comparator; as the list that comes out is unique, any sort will do. */
  function Sort(peers: seq<Peer>): seq<Peer> {
    if peers == [] then [] else Insert(peers[0], Sort(peers[1..]))
  }

  /** `r` is `peers` with one more. */
  ghost predicate HasAdded(peer: Peer, peers: seq<Peer>, r: seq<Peer>) {
    && multiset(r) == multiset{peer} + multiset(peers)
    && (forall p :: p in r <==> p == peer || p in peers)
    && Ids(r) == {peer.deviceId} + Ids(peers)
  }

  lemma {:induction false} AddedBehind(peer: Peer, peers: seq<Peer>, r: seq<Peer>)
    requires peers != [] && HasAdded(peer, peers[1..], r)
    ensures HasAdded(peer, peers, [peers[0]] + r)
  {
    HeadAndTail(peers);
    HeadAndTail([peers[0]] + r);
  }

  lemma {:induction false} InsertAdds(peer: Peer, peers: seq<Peer>)
    ensures HasAdded(peer, peers, Insert(peer, peers))
    decreases peers
  {
    if peers == [] || Before(peer, peers[0]) {
      HeadAndTail([peer] + peers);
    } else {
      InsertAdds(peer, peers[1..]);
      AddedBehind(peer, peers, Insert(peer, peers[1..]));
    }
  }

  lemma {:induction false} InsertKeepsOrder(peer: Peer, peers: seq<Peer>)
    requires Sorted(peers) && Unique(peers) && peer.deviceId !in Ids(peers)
    ensures Sorted(Insert(peer, peers)) && Unique(Insert(peer, peers))
    decreases peers
  {
    if peers != [] {
      HeadAndTail(peers);
      if Before(peer, peers[0]) {
        forall p | p in peers ensures Before(peer, p) {
          if p != peers[0] { BeforeIsTransitive(peer, peers[0], p); }
        }
      } else {
        BeforeIsTotal(peer, peers[0]);
        InsertKeepsOrder(peer, peers[1..]);
        InsertAdds(peer, peers[1..]);
        assert Insert(peer, peers)[1..] == Insert(peer, peers[1..]);
      }
    } else {
      assert Insert(peer, peers)[1..] == [];
    }
  }

  lemma {:induction false} SortSorts(peers: seq<Peer>)
    requires Unique(peers)
    ensures Sorted(Sort(peers)) && Unique(Sort(peers))
    ensures multiset(Sort(peers)) == multiset(peers) && Ids(Sort(peers)) == Ids(peers)
    ensures forall peer :: peer in Sort(peers) <==> peer in peers
    decreases peers
  {
    if peers != [] {
      SortSorts(peers[1..]);
      HeadAndTail(peers);
      InsertAdds(peers[0], Sort(peers[1..]));
      InsertKeepsOrder(peers[0], Sort(peers[1..]));
    }
  }

  /** A sorted list is determined by the peers in it. */
  lemma {:induction false} SortedIsDetermined(a: seq<Peer>, b: seq<Peer>)
    requires Sorted(a) && Sorted(b) && multiset(a) == multiset(b)
    ensures a == b
    decreases a
  {
    if a == [] {
      assert |multiset(b)| == 0;
    } else {
      assert a[0] in multiset(b) && |multiset(b)| == |b|;
      HeadAndTail(a);
      HeadAndTail(b);
      assert b[0] in multiset(a);
      if a[0] != b[0] {
        BeforeIsTotal(a[0], b[0]);
      }
      assert multiset(a[1..]) == multiset(a) - multiset{a[0]};
      assert multiset(b[1..]) == multiset(b) - multiset{b[0]};
      SortedIsDetermined(a[1..], b[1..]);
    }
  }

  // ---- One profile ----

  predicate IsStaleFor(peer: Peer, profile: Profile) {
    && peer.deviceId != profile.deviceId && peer.hostName == profile.hostName
    && peer.address != "" && peer.address != "unknown" && peer.address in profile.addresses
  }

  predicate IsStaleOnline(peer: Peer, profile: Profile, online: bool) {
    && profile.appVersion <= peer.appVersion
    && online && peer.lastSeenAt != "" && profile.lastSeenAt != "" && AtMost(profile.lastSeenAt, peer.lastSeenAt)
  }

  function MakePeer(profile: Profile, online: bool): Peer {
    Peer(profile.deviceId, profile.displayName, profile.hostName,
         if profile.addresses == [] then "unknown" else profile.addresses[0], profile.lastSeenAt, "",
         profile.unreadMessageCount, profile.tcpPort, profile.appVersion, NEVER, online)
  }

  function WithoutStaleFor(peers: seq<Peer>, profile: Profile): seq<Peer> {
    if peers == [] then []
    else if IsStaleFor(peers[0], profile) then WithoutStaleFor(peers[1..], profile)
    else [peers[0]] + WithoutStaleFor(peers[1..], profile)
  }

  function Find(peers: seq<Peer>, id: string): (found: Option<Peer>)
    ensures found.Some? ==> found.value in peers && found.value.deviceId == id
    ensures found.Some? <==> id in Ids(peers)
  {
    if peers == [] then None
    else if peers[0].deviceId == id then Some(peers[0])
    else
      HeadAndTail(peers);
      Find(peers[1..], id)
  }

  /** Overwrites the first peer with the same id. */
  function Replace(peers: seq<Peer>, peer: Peer): seq<Peer> {
    if peers == [] then []
    else if peers[0].deviceId == peer.deviceId then [peer] + peers[1..]
    else [peers[0]] + Replace(peers[1..], peer)
  }

  function Apply(peers: seq<Peer>, profile: Profile, online: bool, now: Time, storedConversationAt: string): seq<Peer> {
    var kept := WithoutStaleFor(peers, profile);
    var existing := Find(kept, profile.deviceId);
    if existing.Some? && IsStaleOnline(existing.value, profile, online) then kept
    else
      var peer := MakePeer(profile, online).(
        lastConversationAt := if existing.Some? then existing.value.lastConversationAt else storedConversationAt,
        lastOnlineSignalAt := if online then now else NEVER);
      Sort(if existing.Some? then Replace(kept, peer) else kept + [peer])
  }

  // ---- Time passing and conversations ----

  predicate IsOnline(signal: Time, now: Time) {
    signal != NEVER && signal + ONLINE_TIMEOUT >= now
  }

  function WithOnline(peer: Peer, now: Time): Peer {
    peer.(online := IsOnline(peer.lastOnlineSignalAt, now))
  }

  function AllWithOnline(peers: seq<Peer>, now: Time): seq<Peer> {
    if peers == [] then [] else [WithOnline(peers[0], now)] + AllWithOnline(peers[1..], now)
  }

  function Refresh(peers: seq<Peer>, now: Time): seq<Peer> {
    var next := AllWithOnline(peers, now);
    if next == peers then peers else Sort(next)
  }

  function Converse(peers: seq<Peer>, id: string, at: string): seq<Peer> {
    var peer := Find(peers, id);
    if id == "" || at == "" || peer.None? || AtMost(at, peer.value.lastConversationAt) then peers
    else Sort(Replace(peers, peer.value.(lastConversationAt := at)))
  }

  /** The list read from storage at the start, with the latest conversation of each peer. */
  function FromStorage(profiles: seq<(Profile, string)>): seq<Peer> {
    if profiles == [] then []
    else [MakePeer(profiles[0].0, false).(lastConversationAt := profiles[0].1)] + FromStorage(profiles[1..])
  }

  // ---- The runtime object ----

  class Peers {
    var peers: seq<Peer>

    constructor ()
      ensures peers == []
    {
      peers := [];
    }

    method SortPeers()
      modifies this
      ensures peers == Sort(old(peers))
    {
      peers := Sort(peers);
    }

    method RefreshPeers(profiles: seq<(Profile, string)>)
      modifies this
      ensures peers == Sort(FromStorage(profiles))
    {
      var nextPeers := [];
      for i := 0 to |profiles|
        invariant nextPeers + FromStorage(profiles[i..]) == FromStorage(profiles)
      {
        assert profiles[i..][1..] == profiles[i + 1..];
        var item := MakePeer(profiles[i].0, false);
        item := item.(lastConversationAt := profiles[i].1);
        nextPeers := nextPeers + [item];
      }
      assert nextPeers == FromStorage(profiles);
      peers := nextPeers;
      SortPeers();
    }

    method ApplyPeerProfile(profile: Profile, online: bool, now: Time, storedConversationAt: string)
      modifies this
      ensures peers == Apply(old(peers), profile, online, now, storedConversationAt)
    {
      peers := WithoutStaleFor(peers, profile);
      var existing := Find(peers, profile.deviceId);
      if existing.Some? && IsStaleOnline(existing.value, profile, online) { return; }
      var lastConversationAt := storedConversationAt;
      if existing.Some? { lastConversationAt := existing.value.lastConversationAt; }
      var item := MakePeer(profile, online);
      item := item.(lastConversationAt := lastConversationAt);
      if online { item := item.(lastOnlineSignalAt := now); }
      if existing.None? {
        peers := peers + [item];
        SortPeers();
        return;
      }
      peers := Replace(peers, item);
      SortPeers();
    }

    method RefreshPeerOnlineStates(now: Time)
      modifies this
      ensures peers == Refresh(old(peers), now)
    {
      var sortNeeded := false;
      ghost var before := peers;
      ghost var next := AllWithOnline(before, now);
      AllWithOnlineAt(before, now);
      for i := 0 to |peers|
        invariant |peers| == |before| == |next|
        invariant forall k | 0 <= k < i :: peers[k] == next[k]
        invariant forall k | i <= k < |peers| :: peers[k] == before[k]
        invariant sortNeeded <==> exists k | 0 <= k < i :: next[k] != before[k]
      {
        var wasOnline := peers[i].online;
        var online := IsOnline(peers[i].lastOnlineSignalAt, now);
        peers := peers[i := peers[i].(online := online)];
        if wasOnline != online { sortNeeded := true; }
      }
      assert peers == next;
      if sortNeeded { SortPeers(); }
    }

    method UpdatePeerLastConversationAt(id: string, at: string)
      modifies this
      ensures peers == Converse(old(peers), id, at)
    {
      if id == "" || at == "" { return; }
      var peer := Find(peers, id);
      if peer.None? { return; }
      if !Less(peer.value.lastConversationAt, at) { return; }
      peers := Replace(peers, peer.value.(lastConversationAt := at));
      SortPeers();
    }
  }

  lemma {:induction false} AllWithOnlineAt(peers: seq<Peer>, now: Time)
    ensures |AllWithOnline(peers, now)| == |peers|
    ensures forall k | 0 <= k < |peers| :: AllWithOnline(peers, now)[k] == WithOnline(peers[k], now)
  {
    if peers != [] {
      AllWithOnlineAt(peers[1..], now);
    }
  }

  // ---- The invariant ----

  /** Whoever is shown online has given a sign at some time. */
  ghost predicate OnlineHasSignal(peers: seq<Peer>) {
    forall peer <- peers :: peer.online ==> peer.lastOnlineSignalAt != NEVER
  }

  ghost predicate ListInvariant(peers: seq<Peer>) {
    Unique(peers) && Sorted(peers) && OnlineHasSignal(peers)
  }

  lemma {:induction false} FilterKeepsOrder(peers: seq<Peer>, profile: Profile)
    requires Unique(peers) && Sorted(peers)
    ensures var r := WithoutStaleFor(peers, profile);
      Unique(r) && Sorted(r) && forall peer :: peer in r <==> peer in peers && !IsStaleFor(peer, profile)
    decreases peers
  {
    if peers != [] {
      HeadAndTail(peers);
      FilterKeepsOrder(peers[1..], profile);
      var rest := WithoutStaleFor(peers[1..], profile);
      assert ([peers[0]] + rest)[1..] == rest;
    }
  }

  lemma {:induction false} AppendKeepsUnique(peers: seq<Peer>, peer: Peer)
    requires Unique(peers) && peer.deviceId !in Ids(peers)
    ensures Unique(peers + [peer]) && Ids(peers + [peer]) == Ids(peers) + {peer.deviceId}
    decreases peers
  {
    var r := peers + [peer];
    if peers == [] {
      assert r[1..] == [] && r == [peer];
    } else {
      HeadAndTail(peers);
      AppendKeepsUnique(peers[1..], peer);
      assert r[1..] == peers[1..] + [peer];
      HeadAndTail(r);
    }
  }

  lemma {:induction false} ReplaceKeepsUnique(peers: seq<Peer>, peer: Peer)
    requires Unique(peers) && peer.deviceId in Ids(peers)
    ensures Unique(Replace(peers, peer)) && Ids(Replace(peers, peer)) == Ids(peers)
    ensures forall p :: p in Replace(peers, peer) <==> p == peer || (p in peers && p.deviceId != peer.deviceId)
    decreases peers
  {
    HeadAndTail(peers);
    var r := Replace(peers, peer);
    if peers[0].deviceId == peer.deviceId {
      assert r[1..] == peers[1..];
    } else {
      ReplaceKeepsUnique(peers[1..], peer);
      assert r[1..] == Replace(peers[1..], peer);
    }
    HeadAndTail(r);
  }

  lemma {:induction false} WithOnlineKeepsUnique(peers: seq<Peer>, now: Time)
    requires Unique(peers)
    ensures Unique(AllWithOnline(peers, now)) && Ids(AllWithOnline(peers, now)) == Ids(peers)
    ensures OnlineHasSignal(AllWithOnline(peers, now))
    decreases peers
  {
    if peers != [] {
      HeadAndTail(peers);
      WithOnlineKeepsUnique(peers[1..], now);
      var r := AllWithOnline(peers, now);
      assert r[1..] == AllWithOnline(peers[1..], now);
      HeadAndTail(r);
    }
  }

  /** Uniqueness in the form in which it is used: one peer for one id. */
  lemma {:induction false} OnePeerForOneId(peers: seq<Peer>, a: Peer, b: Peer)
    requires Unique(peers) && a in peers && b in peers && a.deviceId == b.deviceId
    ensures a == b
    decreases peers
  {
    HeadAndTail(peers);
    if a in peers[1..] && b in peers[1..] {
      OnePeerForOneId(peers[1..], a, b);
    }
  }

  lemma {:induction false} ApplyKeepsInvariant(peers: seq<Peer>, profile: Profile, online: bool, now: Time,
        stored: string)
    requires ListInvariant(peers) && now != NEVER
    ensures ListInvariant(Apply(peers, profile, online, now, stored))
  {
    var kept := WithoutStaleFor(peers, profile);
    FilterKeepsOrder(peers, profile);
    var existing := Find(kept, profile.deviceId);
    if !(existing.Some? && IsStaleOnline(existing.value, profile, online)) {
      var peer := MakePeer(profile, online).(
        lastConversationAt := if existing.Some? then existing.value.lastConversationAt else stored,
        lastOnlineSignalAt := if online then now else NEVER);
      if existing.Some? {
        ReplaceKeepsUnique(kept, peer);
        SortSorts(Replace(kept, peer));
      } else {
        AppendKeepsUnique(kept, peer);
        SortSorts(kept + [peer]);
      }
    }
  }

  lemma {:induction false} RefreshKeepsInvariant(peers: seq<Peer>, now: Time)
    requires ListInvariant(peers)
    ensures ListInvariant(Refresh(peers, now))
  {
    WithOnlineKeepsUnique(peers, now);
    SortSorts(AllWithOnline(peers, now));
  }

  lemma {:induction false} ConverseKeepsInvariant(peers: seq<Peer>, id: string, at: string)
    requires ListInvariant(peers)
    ensures ListInvariant(Converse(peers, id, at))
  {
    var peer := Find(peers, id);
    if peer.Some? {
      var next := peer.value.(lastConversationAt := at);
      ReplaceKeepsUnique(peers, next);
      SortSorts(Replace(peers, next));
    }
  }

  lemma {:induction false} StorageGivesInvariant(profiles: seq<(Profile, string)>)
    requires forall i, j | 0 <= i < j < |profiles| :: profiles[i].0.deviceId != profiles[j].0.deviceId
    ensures ListInvariant(Sort(FromStorage(profiles)))
  {
    FromStorageIsUnique(profiles);
    SortSorts(FromStorage(profiles));
  }

  lemma {:induction false} FromStorageIsUnique(profiles: seq<(Profile, string)>)
    requires forall i, j | 0 <= i < j < |profiles| :: profiles[i].0.deviceId != profiles[j].0.deviceId
    ensures Unique(FromStorage(profiles)) && OnlineHasSignal(FromStorage(profiles))
  {
    if profiles != [] {
      FromStorageIsUnique(profiles[1..]);
      var r := FromStorage(profiles);
      assert r[1..] == FromStorage(profiles[1..]);
      HeadAndTail(r);
      NoOtherId(profiles[1..], profiles[0].0.deviceId);
    }
  }

  lemma {:induction false} NoOtherId(profiles: seq<(Profile, string)>, id: string)
    requires forall k | 0 <= k < |profiles| :: profiles[k].0.deviceId != id
    ensures id !in Ids(FromStorage(profiles))
  {
    if profiles != [] {
      NoOtherId(profiles[1..], id);
      assert FromStorage(profiles)[1..] == FromStorage(profiles[1..]);
      HeadAndTail(FromStorage(profiles));
    }
  }

  // ---- Staying online ----

  datatype Event =
    | Announced(profile: Profile, online: bool, now: Time, storedConversationAt: string)
    | Refreshed(now: Time)
    | Conversed(id: string, at: string)

  function Step(peers: seq<Peer>, event: Event): seq<Peer> {
    match event
    case Announced(profile, online, now, stored) => Apply(peers, profile, online, now, stored)
    case Refreshed(now) => Refresh(peers, now)
    case Conversed(id, at) => Converse(peers, id, at)
  }

  function Run(peers: seq<Peer>, events: seq<Event>): seq<Peer>
    decreases |events|
  {
    if events == [] then peers else Run(Step(peers, events[0]), events[1..])
  }

  predicate ClockHasStarted(event: Event) {
    event.Announced? ==> event.now != NEVER
  }

  lemma {:induction false} InvariantOverRun(peers: seq<Peer>, events: seq<Event>)
    requires ListInvariant(peers)
    requires forall k | 0 <= k < |events| :: ClockHasStarted(events[k])
    ensures ListInvariant(Run(peers, events))
    decreases |events|
  {
    if events != [] {
      assert ClockHasStarted(events[0]);
      StepKeepsInvariant(peers, events[0]);
      InvariantOverRun(Step(peers, events[0]), events[1..]);
    }
  }

  lemma {:induction false} StepKeepsInvariant(peers: seq<Peer>, event: Event)
    requires ListInvariant(peers) && ClockHasStarted(event)
    ensures ListInvariant(Step(peers, event))
  {
    match event
    case Announced(profile, online, now, stored) => ApplyKeepsInvariant(peers, profile, online, now, stored);
    case Refreshed(now) => RefreshKeepsInvariant(peers, now);
    case Conversed(id, at) => ConverseKeepsInvariant(peers, id, at);
  }

  /** What is known of a peer's last announcement. */
  datatype Sign = Sign(lastSeenAt: string, at: Time)

  predicate Shows(peer: Peer, id: string, sign: Sign) {
    && peer.deviceId == id && peer.online
    && peer.lastSeenAt == sign.lastSeenAt && peer.lastOnlineSignalAt == sign.at != NEVER
  }

  ghost predicate ShownOnline(peers: seq<Peer>, id: string, sign: Sign) {
    exists peer <- peers :: Shows(peer, id, sign)
  }

  /** The event is a newer online announcement of the peer, or does not make it go: no offline notice, no
      profile that takes its place, no refresh more than 90 s after its last announcement. */
  ghost predicate Attends(peers: seq<Peer>, id: string, sign: Sign, event: Event) {
    match event
    case Announced(profile, online, now, _) =>
      if profile.deviceId == id then online && now != NEVER && Less(sign.lastSeenAt, profile.lastSeenAt)
      else forall peer <- peers :: peer.deviceId == id ==> !IsStaleFor(peer, profile)
    case Refreshed(now) => now <= sign.at + ONLINE_TIMEOUT
    case Conversed(_, _) => true
  }

  function NextSign(id: string, sign: Sign, event: Event): Sign {
    if event.Announced? && event.profile.deviceId == id then Sign(event.profile.lastSeenAt, event.now) else sign
  }

  ghost predicate Attended(peers: seq<Peer>, id: string, sign: Sign, events: seq<Event>)
    decreases |events|
  {
    events == []
    || (ClockHasStarted(events[0]) && Attends(peers, id, sign, events[0])
        && Attended(Step(peers, events[0]), id, NextSign(id, sign, events[0]), events[1..]))
  }

  function SignAfter(id: string, sign: Sign, events: seq<Event>): Sign
    decreases |events|
  {
    if events == [] then sign else SignAfter(id, NextSign(id, sign, events[0]), events[1..])
  }

  lemma {:induction false} FindFinds(peers: seq<Peer>, peer: Peer)
    requires Unique(peers) && peer in peers
    ensures Find(peers, peer.deviceId) == Some(peer)
  {
    assert peer.deviceId in Ids(peers);
    OnePeerForOneId(peers, Find(peers, peer.deviceId).value, peer);
  }

  lemma {:induction false} AnnouncementKeepsOnline(
      peers: seq<Peer>, id: string, sign: Sign, profile: Profile, online: bool, now: Time, stored: string)
    requires ListInvariant(peers) && ShownOnline(peers, id, sign)
    requires Attends(peers, id, sign, Announced(profile, online, now, stored))
    ensures ShownOnline(Apply(peers, profile, online, now, stored), id,
                        NextSign(id, sign, Announced(profile, online, now, stored)))
  {
    var peer :| peer in peers && Shows(peer, id, sign);
    FilterKeepsOrder(peers, profile);
    var kept := WithoutStaleFor(peers, profile);
    FindFinds(kept, peer);
    var existing := Find(kept, profile.deviceId);
    if !(existing.Some? && IsStaleOnline(existing.value, profile, online)) {
      var item := MakePeer(profile, online).(
        lastConversationAt := if existing.Some? then existing.value.lastConversationAt else stored,
        lastOnlineSignalAt := if online then now else NEVER);
      var next := if existing.Some? then Replace(kept, item) else kept + [item];
      if existing.Some? {
        ReplaceKeepsUnique(kept, item);
      } else {
        AppendKeepsUnique(kept, item);
      }
      SortSorts(next);
      if profile.deviceId == id {
        assert item in Sort(next) && Shows(item, id, Sign(profile.lastSeenAt, now));
      } else {
        assert peer in Sort(next);
      }
    } else {
      assert peer in kept && profile.deviceId != id;
    }
  }

  lemma {:induction false} AllWithOnlineHas(peers: seq<Peer>, now: Time, peer: Peer)
    requires peer in peers
    ensures WithOnline(peer, now) in AllWithOnline(peers, now)
  {
    var k :| 0 <= k < |peers| && peers[k] == peer;
    AllWithOnlineAt(peers, now);
    assert AllWithOnline(peers, now)[k] == WithOnline(peer, now);
  }

  lemma {:induction false} RefreshKeepsOnline(peers: seq<Peer>, id: string, sign: Sign, now: Time)
    requires ListInvariant(peers) && ShownOnline(peers, id, sign) && now <= sign.at + ONLINE_TIMEOUT
    ensures ShownOnline(Refresh(peers, now), id, sign)
  {
    var peer :| peer in peers && Shows(peer, id, sign);
    AllWithOnlineHas(peers, now, peer);
    assert WithOnline(peer, now) == peer;
    WithOnlineKeepsUnique(peers, now);
    SortSorts(AllWithOnline(peers, now));
  }

  lemma {:induction false} ConversationKeepsOnline(peers: seq<Peer>, id: string, sign: Sign, with: string, at: string)
    requires ListInvariant(peers) && ShownOnline(peers, id, sign)
    ensures ShownOnline(Converse(peers, with, at), id, sign)
  {
    var peer :| peer in peers && Shows(peer, id, sign);
    var found := Find(peers, with);
    if found.Some? {
      var next := found.value.(lastConversationAt := at);
      FindFinds(peers, peer);
      ReplaceKeepsUnique(peers, next);
      SortSorts(Replace(peers, next));
      if with == id {
        assert next in Sort(Replace(peers, next)) && Shows(next, id, sign);
      } else {
        assert peer in Sort(Replace(peers, next));
      }
    }
  }

  /** A peer that is shown online and keeps announcing itself at least every 90 s, each time with a newer
      text, is shown online after every event. */
  lemma {:induction false} AttendedStaysOnline(peers: seq<Peer>, id: string, sign: Sign, events: seq<Event>, n: nat)
    requires ListInvariant(peers) && ShownOnline(peers, id, sign) && Attended(peers, id, sign, events) && n <= |events|
    ensures ShownOnline(Run(peers, events[..n]), id, SignAfter(id, sign, events[..n]))
    decreases n
  {
    if n > 0 {
      var event, next := events[0], Step(peers, events[0]);
      assert events[..n][0] == event && events[..n][1..] == events[1..][..n - 1];
      StepKeepsInvariant(peers, event);
      match event {
        case Announced(profile, online, now, stored) => AnnouncementKeepsOnline(peers, id, sign, profile, online, now, stored);
        case Refreshed(now) => RefreshKeepsOnline(peers, id, sign, now);
        case Conversed(with, at) => ConversationKeepsOnline(peers, id, sign, with, at);
      }
      AttendedStaysOnline(next, id, NextSign(id, sign, event), events[1..], n - 1);
    }
  }

  /** After a refresh exactly those are shown online whose last signal is at most 90 s old. */
  lemma {:induction false} RefreshDecides(peers: seq<Peer>, now: Time)
    requires Unique(peers)
    ensures forall peer <- Refresh(peers, now) :: peer.online <==> IsOnline(peer.lastOnlineSignalAt, now)
  {
    AllWithOnlineAt(peers, now);
    WithOnlineKeepsUnique(peers, now);
    SortSorts(AllWithOnline(peers, now));
  }

  // ---- What the list shows ----

  /** The first of the texts that is not empty, or else the last. */
  function FirstGiven(texts: seq<string>): string {
    if texts == [] then "" else if texts[0] != "" || |texts| == 1 then texts[0] else FirstGiven(texts[1..])
  }

  function ShownName(peer: Peer): string {
    FirstGiven([peer.displayName, peer.hostName, peer.address, peer.deviceId])
  }

  lemma {:induction false} SortNameIsShown(peer: Peer)
    ensures SortName(peer) == ShownName(peer)
  {
    var a, b, c := [peer.hostName, peer.address, peer.deviceId], [peer.address, peer.deviceId], [peer.deviceId];
    assert [peer.displayName, peer.hostName, peer.address, peer.deviceId][1..] == a && a[1..] == b && b[1..] == c;
    assert FirstGiven(b) == if peer.address != "" then peer.address else FirstGiven(c);
    assert FirstGiven(a) == if peer.hostName != "" then peer.hostName else FirstGiven(b);
  }

  predicate SameTimes(a: Peer, b: Peer) {
    a.online == b.online && a.lastConversationAt == b.lastConversationAt && a.lastSeenAt == b.lastSeenAt
  }

  /** In the list an earlier peer is online if a later one is, then has the later conversation, then the later sign
      of life, then the smaller name and at last the smaller device id. */
  predicate IsShownBefore(a: Peer, b: Peer) {
    && (b.online ==> a.online)
    && (a.online == b.online ==> AtMost(b.lastConversationAt, a.lastConversationAt))
    && (a.online == b.online && a.lastConversationAt == b.lastConversationAt ==> AtMost(b.lastSeenAt, a.lastSeenAt))
    && (SameTimes(a, b) ==> AtMost(ShownName(a), ShownName(b)))
    && (SameTimes(a, b) && ShownName(a) == ShownName(b) ==> Less(a.deviceId, b.deviceId))
  }

  lemma {:induction false} BeforeIsShownBefore(a: Peer, b: Peer)
    requires Before(a, b)
    ensures IsShownBefore(a, b)
  {
    LessIsTotal(a.lastConversationAt, b.lastConversationAt);
    LessIsTotal(a.lastSeenAt, b.lastSeenAt);
    SortNameIsShown(a);
    SortNameIsShown(b);
    LessIsTotal(SortName(a), SortName(b));
  }

  lemma {:induction false} SortedShows(peers: seq<Peer>, i: nat, j: nat)
    requires Sorted(peers) && i < j < |peers|
    ensures IsShownBefore(peers[i], peers[j])
    decreases peers
  {
    if i == 0 {
      assert peers[1..][j - 1] == peers[j];
      BeforeIsShownBefore(peers[0], peers[j]);
    } else {
      SortedShows(peers[1..], i - 1, j - 1);
    }
  }

  /** The shown fields are the profile's; the address is its first one. */
  predicate ShowsProfile(peer: Peer, profile: Profile) {
    && peer.deviceId == profile.deviceId && peer.displayName == profile.displayName && peer.hostName == profile.hostName
    && peer.address == (if profile.addresses == [] then "unknown" else profile.addresses[0])
    && peer.lastSeenAt == profile.lastSeenAt && peer.unreadMessageCount == profile.unreadMessageCount
    && peer.tcpPort == profile.tcpPort && peer.appVersion == profile.appVersion
  }

  /** An online profile that raises no version and is not later than what is shown. */
  predicate IsOutdated(shown: Peer, profile: Profile, online: bool) {
    && online && !(shown.appVersion < profile.appVersion) && !Less(shown.lastSeenAt, profile.lastSeenAt)
    && shown.lastSeenAt != "" && profile.lastSeenAt != ""
  }

  /** Another device of that host name shown at one of the profile's addresses. */
  predicate GivesWay(shown: Peer, profile: Profile) {
    && shown.deviceId != profile.deviceId && shown.hostName == profile.hostName
    && shown.address in profile.addresses && shown.address !in {"", "unknown"}
  }

  lemma {:induction false} FilteredIsFound(peers: seq<Peer>, profile: Profile)
    requires ListInvariant(peers)
    ensures Find(WithoutStaleFor(peers, profile), profile.deviceId) == Find(peers, profile.deviceId)
  {
    var kept := WithoutStaleFor(peers, profile);
    FilterKeepsOrder(peers, profile);
    var shown := Find(peers, profile.deviceId);
    if shown.Some? {
      FindFinds(kept, shown.value);
    }
  }

  /** An applied profile is shown unless it is outdated: with its own fields, the signal just received if it is
      online, and the conversation already shown or else the stored one. */
  lemma {:induction false} AppliedIsShown(peers: seq<Peer>, profile: Profile, online: bool, now: Time, stored: string)
    requires ListInvariant(peers)
    ensures var shown := Find(peers, profile.deviceId);
            var shown' := Find(Apply(peers, profile, online, now, stored), profile.deviceId);
      if shown.Some? && IsOutdated(shown.value, profile, online) then shown' == shown
      else
        && shown'.Some? && ShowsProfile(shown'.value, profile) && shown'.value.online == online
        && shown'.value.lastOnlineSignalAt == (if online then now else 0)
        && shown'.value.lastConversationAt == if shown.Some? then shown.value.lastConversationAt else stored
  {
    var kept := WithoutStaleFor(peers, profile);
    FilterKeepsOrder(peers, profile);
    FilteredIsFound(peers, profile);
    var existing := Find(kept, profile.deviceId);
    if !(existing.Some? && IsStaleOnline(existing.value, profile, online)) {
      var item := MakePeer(profile, online).(
        lastConversationAt := if existing.Some? then existing.value.lastConversationAt else stored,
        lastOnlineSignalAt := if online then now else NEVER);
      AddedIsFound(kept, item);
    }
  }

  lemma {:induction false} AddedIsFound(kept: seq<Peer>, item: Peer)
    requires Unique(kept)
    ensures var next := if item.deviceId in Ids(kept) then Replace(kept, item) else kept + [item];
      && Find(Sort(next), item.deviceId) == Some(item)
      && forall peer :: peer in Sort(next) <==> peer == item || (peer in kept && peer.deviceId != item.deviceId)
  {
    if item.deviceId in Ids(kept) {
      ReplaceKeepsUnique(kept, item);
      SortSorts(Replace(kept, item));
      FindFinds(Sort(Replace(kept, item)), item);
    } else {
      AppendKeepsUnique(kept, item);
      SortSorts(kept + [item]);
      FindFinds(Sort(kept + [item]), item);
    }
  }

  /** Of the other peers exactly those that give way to the profile go; the rest stay as they are. */
  lemma {:induction false} OthersAfterApply(peers: seq<Peer>, profile: Profile, online: bool, now: Time, stored: string,
        other: Peer)
    requires ListInvariant(peers) && other.deviceId != profile.deviceId
    ensures other in Apply(peers, profile, online, now, stored) <==> other in peers && !GivesWay(other, profile)
  {
    var kept := WithoutStaleFor(peers, profile);
    FilterKeepsOrder(peers, profile);
    var existing := Find(kept, profile.deviceId);
    AddedIsFound(kept, MakePeer(profile, online).(
      lastConversationAt := if existing.Some? then existing.value.lastConversationAt else stored,
      lastOnlineSignalAt := if online then now else NEVER));
  }

  /** From the wire to the window: what a device announces of itself is shown at the address it was seen at. */
  lemma {:induction false} NewsIsShown(store: Store, o: Observation, peers: seq<Peer>, now: Time, stored: string)
    requires ListInvariant(peers) && IsNews(store, o.announcement) && o.address != ""
    ensures var a, u, online := o.announcement, Upsert(store, o, false), !o.announcement.offline;
      && u.profile.Ok?
      && var shown := Find(peers, a.deviceId);
      !(shown.Some? && IsOutdated(shown.value, u.profile.value, online)) ==>
        var shown' := Find(Apply(peers, u.profile.value, online, now, stored), a.deviceId);
        && shown'.Some? && shown'.value.address == o.address && shown'.value.online == online
        && shown'.value.displayName == a.displayName && shown'.value.hostName == a.hostName
        && shown'.value.tcpPort == a.tcpPort && shown'.value.appVersion == a.appVersion
  {
    NewsGives(store, o, false);
    AppliedIsShown(peers, Upsert(store, o, false).profile.value, !o.announcement.offline, now, stored);
  }

  /** After a refresh every peer is as before, save that those are online whose last signal is at most 90 s old. */
  lemma {:induction false} RefreshShows(peers: seq<Peer>, now: Time, id: string)
    requires ListInvariant(peers)
    ensures var shown, shown' := Find(peers, id), Find(Refresh(peers, now), id);
      && shown'.Some? == shown.Some?
      && (shown.Some? ==>
            var signal := shown.value.lastOnlineSignalAt;
            shown'.value == shown.value.(online := signal != 0 && now <= signal + 90000))
  {
    var shown := Find(peers, id);
    WithOnlineKeepsUnique(peers, now);
    SortSorts(AllWithOnline(peers, now));
    if shown.Some? {
      AllWithOnlineHas(peers, now, shown.value);
      FindFinds(Refresh(peers, now), WithOnline(shown.value, now));
    }
  }

  /** A conversation is shown if its time is later than the one shown; nothing else changes. */
  lemma {:induction false} ConversationIsShown(peers: seq<Peer>, id: string, at: string, other: string)
    requires ListInvariant(peers)
    ensures var shown, shown' := Find(peers, other), Find(Converse(peers, id, at), other);
      shown' == if other == id != "" && shown.Some? && Less(shown.value.lastConversationAt, at)
                then Some(shown.value.(lastConversationAt := at)) else shown
  {
    var peer, shown := Find(peers, id), Find(peers, other);
    if id != "" && peer.Some? && Less(peer.value.lastConversationAt, at) {
      var item := peer.value.(lastConversationAt := at);
      AddedIsFound(peers, item);
      ConverseKeepsInvariant(peers, id, at);
      if shown.Some? && other != id { FindFinds(Converse(peers, id, at), shown.value); }
    }
  }

  lemma {:induction false} FromStorageAt(profiles: seq<(Profile, string)>, k: nat)
    requires k < |profiles|
    ensures |FromStorage(profiles)| == |profiles|
    ensures var peer := FromStorage(profiles)[k];
      && ShowsProfile(peer, profiles[k].0) && peer.lastConversationAt == profiles[k].1
      && !peer.online && peer.lastOnlineSignalAt == 0
  {
    if |profiles| > 1 { FromStorageAt(profiles[1..], if k == 0 then 0 else k - 1); }
  }

  /** Every stored profile is shown, offline and with its latest conversation. */
  lemma {:induction false} StoredIsShown(profiles: seq<(Profile, string)>, k: nat)
    requires forall i, j | 0 <= i < j < |profiles| :: profiles[i].0.deviceId != profiles[j].0.deviceId
    requires k < |profiles|
    ensures var shown := Find(Sort(FromStorage(profiles)), profiles[k].0.deviceId);
      && shown.Some? && ShowsProfile(shown.value, profiles[k].0) && shown.value.lastConversationAt == profiles[k].1
      && !shown.value.online && shown.value.lastOnlineSignalAt == 0
  {
    FromStorageAt(profiles, k);
    FromStorageIsUnique(profiles);
    SortSorts(FromStorage(profiles));
    FindFinds(Sort(FromStorage(profiles)), FromStorage(profiles)[k]);
  }
}
