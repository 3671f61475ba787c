/**
  The peer database: the connection state machine, the three counters it keeps
  up to date step by step, and the eviction of the oldest peers.
*/
module PeerDb {
  import opened Common

  const MAX_DC_PEERS: nat := 500
  const MAX_BANNED_PEERS: nat := 1000
  const BANNED_PEERS_PER_IP_THRESHOLD: nat := 5
  const NANOS_PER_SEC: nat := 1_000_000_000
  const DIAL_TIMEOUT: nat := 15 * NANOS_PER_SEC

  /** Nanoseconds on a monotonic clock. */
  type Instant = nat
  type Ip = nat

  /** An address may carry no IP. */
  datatype Multiaddr = Multiaddr(id: nat, ip: Option<Ip>)

  datatype Direction = Incoming | Outgoing

  datatype ConnectionStatus =
    | Connected(nIn: nat, nOut: nat)
    | Disconnecting(toBan: bool)
    | Disconnected(since: Instant)
    | Banned(since: Instant)
    | Dialing(since: Instant)
    | Unknown

  datatype ScoreState = Healthy | ForcedDisconnect | ScoreBanned

  /** `seen` is a set kept in iteration order; two addresses may share an IP. */
  datatype PeerInfo = PeerInfo(
    score: ScoreState,
    status: ConnectionStatus,
    seen: seq<Multiaddr>,
    subnets: set<SubnetId>,
    isTrusted: bool)

  const DEFAULT_INFO := PeerInfo(Healthy, Unknown, [], {}, false)
  const TRUSTED_INFO := PeerInfo(Healthy, Unknown, [], {}, true)

  datatype NewConnectionState =
    | ToConnected(address: Multiaddr, direction: Direction)
    | ToDisconnecting(toBan: bool)
    | ToDialing
    | ToDisconnected
    | ToBanned
    | ToUnbanned

  datatype BanOperation = TemporaryBan | DisconnectThePeer | ReadyToBan(ips: seq<Ip>) | PeerDisconnecting

  type Peers = map<PeerId, PeerInfo>
  type IpCounts = map<Ip, nat>

  function SeenIps(seen: seq<Multiaddr>): seq<Ip> {
    if seen == [] then []
    else if seen[0].ip.Some? then [seen[0].ip.value] + SeenIps(seen[1..])
    else SeenIps(seen[1..])
  }

  function Ips(info: PeerInfo): seq<Ip> {
    SeenIps(info.seen)
  }

  // ----- The recount the counters are meant to agree with -----

  function DisconnectedPeers(peers: Peers): set<PeerId> {
    set p | p in peers && peers[p].status.Disconnected?
  }

  function BannedPeers(peers: Peers): set<PeerId> {
    set p | p in peers && peers[p].status.Banned?
  }

  /** The IPs of the banned peers, each as often as it occurs. */
  ghost function BannedIps(peers: Peers): multiset<Ip>
    decreases |peers|
  {
    if BannedPeers(peers) == {} then multiset{}
    else
      var p :| p in BannedPeers(peers);
      assert |peers - {p}| < |peers| by { Smaller(peers, p); }
      multiset(Ips(peers[p])) + BannedIps(peers - {p})
  }

  lemma Smaller(peers: Peers, p: PeerId)
    requires p in peers
    ensures |peers - {p}| < |peers|
  {
    assert (peers - {p}).Keys == peers.Keys - {p};
  }

  function IpsIfBanned(info: PeerInfo): multiset<Ip> {
    if info.status.Banned? then multiset(Ips(info)) else multiset{}
  }

  lemma BannedIpsUnfold(peers: Peers) returns (q: PeerId)
    requires BannedPeers(peers) != {}
    ensures q in BannedPeers(peers) && BannedIps(peers) == multiset(Ips(peers[q])) + BannedIps(peers - {q})
  {
    q :| q in BannedPeers(peers) && BannedIps(peers) == multiset(Ips(peers[q])) + BannedIps(peers - {q});
  }

  lemma MultisetShuffle(a: multiset<Ip>, b: multiset<Ip>, c: multiset<Ip>)
    ensures a + (b + c) == b + (a + c)
  {}

  lemma WithoutBoth(peers: Peers, p: PeerId, q: PeerId)
    requires p in peers && q in peers && p != q
    ensures peers - {q} - {p} == peers - {p} - {q}
    ensures p in peers - {q} && (peers - {q})[p] == peers[p]
    ensures q in peers - {p} && (peers - {p})[q] == peers[q]
    ensures |peers - {p}| < |peers| && |peers - {q}| < |peers|
  {
    Smaller(peers, p);
    Smaller(peers, q);
  }

  /** Any one peer's share can be taken out of the recount. */
  lemma {:induction false} BannedIpsWithout(peers: Peers, p: PeerId)
    requires p in peers
    ensures BannedIps(peers) == IpsIfBanned(peers[p]) + BannedIps(peers - {p})
    decreases |peers|
  {
    if BannedPeers(peers) == {} {
      assert BannedPeers(peers - {p}) == {};
    } else {
      var q := BannedIpsUnfold(peers);
      if q != p {
        WithoutBoth(peers, p, q);
        BannedIpsWithout(peers - {q}, p);
        BannedIpsWithout(peers - {p}, q);
        MultisetShuffle(multiset(Ips(peers[q])), IpsIfBanned(peers[p]), BannedIps(peers - {p} - {q}));
      }
    }
  }

  lemma BannedIpsUpdated(peers: Peers, p: PeerId, info: PeerInfo)
    ensures BannedIps(peers[p := info]) ==
            BannedIps(peers) - (if p in peers then IpsIfBanned(peers[p]) else multiset{}) + IpsIfBanned(info)
  {
    BannedIpsWithout(peers[p := info], p);
    assert peers[p := info] - {p} == peers - {p};
    if p in peers {
      BannedIpsWithout(peers, p);
    } else {
      assert peers - {p} == peers;
    }
  }

  // ----- The counters -----

  /** The database: the peers and the three counters kept beside them. */
  datatype Db = Db(peers: Peers, disconnected: nat, banned: nat, perIp: IpCounts)

  function Count(counts: IpCounts, ip: Ip): nat {
    if ip in counts then counts[ip] else 0
  }

  ghost predicate IpsExact(peers: Peers, counts: IpCounts) {
    forall ip :: Count(counts, ip) == BannedIps(peers)[ip]
  }

  /** The counters equal the recount. */
  ghost predicate Exact(db: Db) {
    && db.disconnected == |DisconnectedPeers(db.peers)|
    && db.banned == |BannedPeers(db.peers)|
    && IpsExact(db.peers, db.perIp)
  }

  function SatDec(n: nat): nat { if n == 0 then 0 else n - 1 }

  function One(b: bool): nat { if b then 1 else 0 }

  lemma SetChanged(was: set<PeerId>, now: set<PeerId>, p: PeerId, isIn: bool)
    requires forall q :: q in now <==> if q == p then isIn else q in was
    ensures |now| == |was| - One(p in was) + One(isIn)
  {
    assert now == was - {p} + (if isIn then {p} else {});
  }

  lemma StatusCounts(peers: Peers, p: PeerId, info: PeerInfo)
    ensures |DisconnectedPeers(peers[p := info])| == |DisconnectedPeers(peers)|
              - One(p in peers && peers[p].status.Disconnected?) + One(info.status.Disconnected?)
    ensures |BannedPeers(peers[p := info])| == |BannedPeers(peers)|
              - One(p in peers && peers[p].status.Banned?) + One(info.status.Banned?)
  {
    SetChanged(DisconnectedPeers(peers), DisconnectedPeers(peers[p := info]), p, info.status.Disconnected?);
    SetChanged(BannedPeers(peers), BannedPeers(peers[p := info]), p, info.status.Banned?);
  }

  function Released(counts: IpCounts, ips: seq<Ip>): IpCounts
    decreases ips
  {
    if ips == [] then counts
    else Released(if ips[0] in counts then counts[ips[0] := SatDec(counts[ips[0]])] else counts, ips[1..])
  }

  function Added(counts: IpCounts, ips: seq<Ip>): IpCounts
    decreases ips
  {
    if ips == [] then counts
    else Added(counts[ips[0] := Count(counts, ips[0]) + 1], ips[1..])
  }

  lemma {:induction false} AddedCount(counts: IpCounts, ips: seq<Ip>, ip: Ip)
    ensures Count(Added(counts, ips), ip) == Count(counts, ip) + multiset(ips)[ip]
    decreases ips
  {
    if ips != [] {
      assert ips == [ips[0]] + ips[1..];
      AddedCount(counts[ips[0] := Count(counts, ips[0]) + 1], ips[1..], ip);
    }
  }

  lemma {:induction false} ReleasedCount(counts: IpCounts, ips: seq<Ip>, ip: Ip)
    ensures Count(Released(counts, ips), ip) ==
            if Count(counts, ip) < multiset(ips)[ip] then 0 else Count(counts, ip) - multiset(ips)[ip]
    decreases ips
  {
    if ips != [] {
      assert ips == [ips[0]] + ips[1..];
      ReleasedCount(if ips[0] in counts then counts[ips[0] := SatDec(counts[ips[0]])] else counts, ips[1..], ip);
    }
  }

  predicate IpIsBanned(counts: IpCounts, ip: Ip) {
    Count(counts, ip) > BANNED_PEERS_PER_IP_THRESHOLD
  }

  /** The IPs of the list that are over the threshold, or not over it, in order. */
  function Over(counts: IpCounts, ips: seq<Ip>, over: bool): seq<Ip> {
    if ips == [] then []
    else (if IpIsBanned(counts, ips[0]) == over then [ips[0]] else []) + Over(counts, ips[1..], over)
  }

  /** The same selection by recount. */
  ghost function OverByRecount(peers: Peers, ips: seq<Ip>, over: bool): seq<Ip> {
    if ips == [] then []
    else (if (BannedIps(peers)[ips[0]] > BANNED_PEERS_PER_IP_THRESHOLD) == over then [ips[0]] else []) +
         OverByRecount(peers, ips[1..], over)
  }

  lemma {:induction false} OverIsRecount(peers: Peers, counts: IpCounts, ips: seq<Ip>, over: bool)
    requires IpsExact(peers, counts)
    ensures Over(counts, ips, over) == OverByRecount(peers, ips, over)
  {
    if ips != [] {
      assert Count(counts, ips[0]) == BannedIps(peers)[ips[0]];
      OverIsRecount(peers, counts, ips[1..], over);
    }
  }

  // ----- One requested transition -----

  function Inserted(seen: seq<Multiaddr>, a: Multiaddr): seq<Multiaddr> {
    if a in seen then seen else seen + [a]
  }

  function ConnectedStatus(status: ConnectionStatus, direction: Direction): ConnectionStatus {
    match (status, direction)
    case (Connected(i, o), Incoming) => Connected(i + 1, o)
    case (Connected(i, o), Outgoing) => Connected(i, o + 1)
    case (_, Incoming) => Connected(1, 0)
    case (_, Outgoing) => Connected(0, 1)
  }

  /** The table of the state machine: where each request leads from each status. */
  function NextStatus(status: ConnectionStatus, to: NewConnectionState, now: Instant): ConnectionStatus {
    match to
    case ToConnected(_, direction) => ConnectedStatus(status, direction)
    case ToDisconnecting(toBan) => Disconnecting(toBan)
    case ToDialing =>
      if status.Unknown? || status.Disconnected? || status.Banned? then Dialing(now) else status
    case ToDisconnected =>
      if status.Banned? || status.Disconnected? then status
      else if status == Disconnecting(true) then Banned(now)
      else Disconnected(now)
    case ToBanned =>
      if status.Banned? then status
      else if status.Disconnected? || status.Unknown? then Banned(now)
      else Disconnecting(true)
    case ToUnbanned =>
      if status.Banned? then Disconnected(status.since) else status
  }

  function NextInfo(info: PeerInfo, to: NewConnectionState, now: Instant): PeerInfo {
    PeerInfo(
      if to.ToBanned? && !info.isTrusted then ScoreBanned else info.score,
      NextStatus(info.status, to, now),
      if to.ToConnected? then Inserted(info.seen, to.address) else info.seen,
      if to.ToDisconnected? then {} else info.subnets,
      info.isTrusted)
  }

  function InfoOf(peers: Peers, p: PeerId, trustAll: bool): PeerInfo {
    if p in peers then peers[p] else if trustAll then TRUSTED_INFO else DEFAULT_INFO
  }

  /** Each counter moves as the peer's status enters or leaves what it counts; a ban is released if `releases`. */
  function Moved(db: Db, p: PeerId, was: PeerInfo, next: PeerInfo, releases: bool): Db {
    Db(
      db.peers[p := next],
      if was.status.Disconnected? && !next.status.Disconnected? then SatDec(db.disconnected)
      else if !was.status.Disconnected? && next.status.Disconnected? then db.disconnected + 1
      else db.disconnected,
      if was.status.Banned? && !next.status.Banned? && releases then SatDec(db.banned)
      else if !was.status.Banned? && next.status.Banned? then db.banned + 1
      else db.banned,
      if was.status.Banned? && !next.status.Banned? && releases then Released(db.perIp, Ips(was))
      else if !was.status.Banned? && next.status.Banned? then Added(db.perIp, Ips(was))
      else db.perIp)
  }

  /** Disconnecting a banned peer does not release its ban. */
  function Updated(db: Db, p: PeerId, to: NewConnectionState, now: Instant, trustAll: bool): Db {
    var was := InfoOf(db.peers, p, trustAll);
    Moved(db, p, was, NextInfo(was, to, now), !to.ToDisconnecting?)
  }

  /** What the peer manager is told to do. */
  function BanOperationFor(db: Db, p: PeerId, to: NewConnectionState, now: Instant, trustAll: bool): Option<BanOperation> {
    var was := InfoOf(db.peers, p, trustAll).status;
    var after := Updated(db, p, to, now, trustAll);
    match to
    case ToDisconnected =>
      if was == Disconnecting(false) then Some(TemporaryBan)
      else if was == Disconnecting(true) then Some(ReadyToBan(Over(after.perIp, Ips(after.peers[p]), true)))
      else None
    case ToBanned =>
      if was.Disconnecting? then Some(PeerDisconnecting)
      else if was.Connected? || was.Dialing? then Some(DisconnectThePeer)
      else Some(ReadyToBan(Over(after.perIp, Ips(after.peers[p]), true)))
    case _ => None
  }

  /** A stored peer, or an unknown one whose status nothing counts. */
  predicate Current(peers: Peers, p: PeerId, was: PeerInfo) {
    if p in peers then was == peers[p] else was.status.Unknown?
  }

  lemma MovedPeers(db: Db, p: PeerId, was: PeerInfo, next: PeerInfo, releases: bool)
    requires Exact(db) && Current(db.peers, p, was)
    ensures var after := Moved(db, p, was, next, releases);
            && after.disconnected == |DisconnectedPeers(after.peers)|
            && after.banned == |BannedPeers(after.peers)| + One(was.status.Banned? && !next.status.Banned? && !releases)
  {
    StatusCounts(db.peers, p, next);
    if p in db.peers {
      assert db.peers[p].status.Disconnected? ==> p in DisconnectedPeers(db.peers);
      assert db.peers[p].status.Banned? ==> p in BannedPeers(db.peers);
    }
  }

  /** Occurrences of an IP that a peer adds to the recount. */
  function Share(info: PeerInfo, ip: Ip): nat {
    if info.status.Banned? then multiset(Ips(info))[ip] else 0
  }

  lemma RecountMoves(peers: Peers, p: PeerId, info: PeerInfo, ip: Ip)
    ensures BannedIps(peers[p := info])[ip] == BannedIps(peers)[ip] - (if p in peers then Share(peers[p], ip) else 0) + Share(info, ip)
    ensures p in peers ==> Share(peers[p], ip) <= BannedIps(peers)[ip]
  {
    BannedIpsUpdated(peers, p, info);
    if p in peers { BannedIpsWithout(peers, p); }
  }

  lemma MovedIp(db: Db, p: PeerId, was: PeerInfo, next: PeerInfo, ip: Ip)
    requires Count(db.perIp, ip) == BannedIps(db.peers)[ip] && Current(db.peers, p, was)
    requires next.status.Banned? ==> next.seen == was.seen
    ensures var after := Moved(db, p, was, next, true); Count(after.perIp, ip) == BannedIps(after.peers)[ip]
  {
    RecountMoves(db.peers, p, next, ip);
    AddedCount(db.perIp, Ips(was), ip);
    ReleasedCount(db.perIp, Ips(was), ip);
  }

  lemma MovedExact(db: Db, p: PeerId, was: PeerInfo, next: PeerInfo)
    requires Exact(db) && Current(db.peers, p, was)
    requires next.status.Banned? ==> next.seen == was.seen
    ensures Exact(Moved(db, p, was, next, true))
  {
    MovedPeers(db, p, was, next, true);
    forall ip
      ensures Count(Moved(db, p, was, next, true).perIp, ip) == BannedIps(Moved(db, p, was, next, true).peers)[ip]
    {
      MovedIp(db, p, was, next, ip);
    }
  }

  /** From exact counters, a request keeps them exact if and only if it does not disconnect a banned peer. */
  lemma ExactUnlessBannedDisconnects(db: Db, p: PeerId, to: NewConnectionState, now: Instant, trustAll: bool)
    requires Exact(db)
    ensures Exact(Updated(db, p, to, now, trustAll)) <==> !(p in db.peers && db.peers[p].status.Banned? && to.ToDisconnecting?)
  {
    var was := InfoOf(db.peers, p, trustAll);
    var next := NextInfo(was, to, now);
    if was.status.Banned? && to.ToDisconnecting? {
      MovedPeers(db, p, was, next, false);
    } else {
      assert Updated(db, p, to, now, trustAll) == Moved(db, p, was, next, true);
      MovedExact(db, p, was, next);
    }
  }

  /** With exact counters no decrement is cut off at zero. */
  lemma NothingSaturates(db: Db, p: PeerId)
    requires Exact(db) && p in db.peers
    ensures db.peers[p].status.Disconnected? ==> db.disconnected > 0
    ensures db.peers[p].status.Banned? ==> db.banned > 0
    ensures db.peers[p].status.Banned? ==> forall ip :: multiset(Ips(db.peers[p]))[ip] <= Count(db.perIp, ip)
  {
    assert db.peers[p].status.Disconnected? ==> p in DisconnectedPeers(db.peers);
    assert db.peers[p].status.Banned? ==> p in BannedPeers(db.peers);
    BannedIpsWithout(db.peers, p);
  }

  /** With exact counters an IP is banned, alone or picked from a list, exactly when a recount puts it over the threshold. */
  lemma IpBansAreRecounts(db: Db)
    requires Exact(db)
    ensures forall ip :: IpIsBanned(db.perIp, ip) <==> BannedIps(db.peers)[ip] > BANNED_PEERS_PER_IP_THRESHOLD
    ensures forall ips, over :: Over(db.perIp, ips, over) == OverByRecount(db.peers, ips, over)
  {
    assert forall ip :: Count(db.perIp, ip) == BannedIps(db.peers)[ip];
    forall ips, over
      ensures Over(db.perIp, ips, over) == OverByRecount(db.peers, ips, over)
    {
      OverIsRecount(db.peers, db.perIp, ips, over);
    }
  }
}
