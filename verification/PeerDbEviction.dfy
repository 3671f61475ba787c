/** Eviction: the oldest banned peers, then the oldest untrusted disconnected ones, until the counters fit. */
module PeerDbEviction {
  import opened Common
  import opened PeerDb

  function Since(info: PeerInfo): Instant {
    match info.status
    case Banned(since) => since
    case Disconnected(since) => since
    case _ => 0
  }

  /** Disconnected peers that may be dropped. */
  function Droppable(peers: Peers): set<PeerId> {
    set p | p in peers && peers[p].status.Disconnected? && !peers[p].isTrusted
  }

  function TrustedDisconnected(peers: Peers): set<PeerId> {
    set p | p in peers && peers[p].status.Disconnected? && peers[p].isTrusted
  }

  predicate Oldest(peers: Peers, among: set<PeerId>, p: PeerId)
    requires among <= peers.Keys
  {
    p in among && forall q :: q in among ==> Since(peers[p]) <= Since(peers[q])
  }

  function EvictedBanned(db: Db, p: PeerId): Db
    requires p in db.peers
  {
    Db(db.peers - {p}, db.disconnected, SatDec(db.banned), Released(db.perIp, Ips(db.peers[p])))
  }

  function EvictedDisconnected(db: Db, p: PeerId): Db {
    Db(db.peers - {p}, SatDec(db.disconnected), db.banned, db.perIp)
  }

  /** The first loop: it drops `ps` in turn, choosing freely among equally old peers. */
  ghost predicate BannedShrunk(db: Db, ps: seq<PeerId>, db': Db)
    decreases |ps|
  {
    if db.banned <= MAX_BANNED_PEERS then ps == [] && db' == db
    else if BannedPeers(db.peers) == {} then ps == [] && db' == db.(banned := 0, perIp := map[])
    else ps != [] && Oldest(db.peers, BannedPeers(db.peers), ps[0]) && BannedShrunk(EvictedBanned(db, ps[0]), ps[1..], db')
  }

  /** The second loop: the counter falls even when only trusted peers are left. */
  ghost predicate DisconnectedShrunk(db: Db, ps: seq<PeerId>, db': Db)
    decreases db.disconnected
  {
    if db.disconnected <= MAX_DC_PEERS then ps == [] && db' == db
    else if Droppable(db.peers) == {} then DisconnectedShrunk(db.(disconnected := db.disconnected - 1), ps, db')
    else ps != [] && Oldest(db.peers, Droppable(db.peers), ps[0]) && DisconnectedShrunk(EvictedDisconnected(db, ps[0]), ps[1..], db')
  }

  /** For each dropped banned peer, its IPs not banned right after its own release. */
  function Reports(db: Db, ps: seq<PeerId>): seq<(PeerId, seq<Ip>)>
    decreases |ps|
  {
    if ps == [] || ps[0] !in db.peers then []
    else
      var after := EvictedBanned(db, ps[0]);
      [(ps[0], Over(after.perIp, Ips(db.peers[ps[0]]), false))] + Reports(after, ps[1..])
  }

  // ----- Oldest first -----

  /** `ps` are distinct members of `among`, each no younger than any member not listed before it. */
  ghost predicate OldestFirst(peers: Peers, among: set<PeerId>, ps: seq<PeerId>)
    requires among <= peers.Keys
  {
    && (forall i :: 0 <= i < |ps| ==> ps[i] in among)
    && (forall i, j :: 0 <= i < j < |ps| ==> ps[i] != ps[j])
    && (forall i, q :: 0 <= i < |ps| && q in among && q !in ps[..i] ==> Since(peers[ps[i]]) <= Since(peers[q]))
  }

  lemma OldestFirstCons(peers: Peers, among: set<PeerId>, ps: seq<PeerId>)
    requires among <= peers.Keys && ps != []
    requires Oldest(peers, among, ps[0])
    requires OldestFirst(peers - {ps[0]}, among - {ps[0]}, ps[1..])
    ensures OldestFirst(peers, among, ps)
  {
    var rest := ps[1..];
    forall i, j | 0 <= i < j < |ps|
      ensures ps[i] != ps[j]
    {
      assert ps[j] == rest[j - 1];
      if i > 0 { assert ps[i] == rest[i - 1]; }
    }
    forall i, q | 0 <= i < |ps| && q in among && q !in ps[..i]
      ensures Since(peers[ps[i]]) <= Since(peers[q])
    {
      if i > 0 {
        assert ps[..i] == [ps[0]] + rest[..i - 1];
        assert q in among - {ps[0]} && q !in rest[..i - 1];
        assert Since((peers - {ps[0]})[rest[i - 1]]) <= Since((peers - {ps[0]})[q]);
      }
    }
    forall i | 0 <= i < |ps|
      ensures ps[i] in among
    {
      if i > 0 { assert ps[i] == rest[i - 1]; }
    }
  }

  lemma ElementsCons(peers: Peers, ps: seq<PeerId>)
    requires ps != []
    ensures peers - Elements(ps) == peers - {ps[0]} - Elements(ps[1..])
  {
    assert Elements(ps) == {ps[0]} + Elements(ps[1..]);
  }

  // ----- The banned loop -----

  /** Forgetting a peer is what moving it to a status that nothing counts does to the recount. */
  lemma ExactAfterBannedEviction(db: Db, p: PeerId)
    requires Exact(db) && p in BannedPeers(db.peers)
    ensures Exact(EvictedBanned(db, p))
    ensures BannedPeers(EvictedBanned(db, p).peers) == BannedPeers(db.peers) - {p}
    ensures db.banned > 0
  {
    var after := EvictedBanned(db, p);
    assert BannedPeers(after.peers) == BannedPeers(db.peers) - {p};
    assert DisconnectedPeers(after.peers) == DisconnectedPeers(db.peers);
    BannedIpsWithout(db.peers, p);
    forall ip
      ensures Count(after.perIp, ip) == BannedIps(after.peers)[ip]
    {
      assert Count(db.perIp, ip) == BannedIps(db.peers)[ip];
      ReleasedCount(db.perIp, Ips(db.peers[p]), ip);
    }
  }

  /** Exactly the excess of banned peers is dropped, oldest first, and nothing else changes. */
  lemma {:induction false} BannedLoop(db: Db, ps: seq<PeerId>, db': Db)
    requires Exact(db) && BannedShrunk(db, ps, db')
    ensures Exact(db') && db'.peers == db.peers - Elements(ps)
    ensures |ps| == if db.banned > MAX_BANNED_PEERS then db.banned - MAX_BANNED_PEERS else 0
    ensures OldestFirst(db.peers, BannedPeers(db.peers), ps)
    ensures db'.disconnected == db.disconnected
    decreases |ps|
  {
    if db.banned <= MAX_BANNED_PEERS {
      assert db.peers - Elements(ps) == db.peers;
    } else {
      ExactAfterBannedEviction(db, ps[0]);
      BannedLoop(EvictedBanned(db, ps[0]), ps[1..], db');
      OldestFirstCons(db.peers, BannedPeers(db.peers), ps);
      ElementsCons(db.peers, ps);
    }
  }

  /** Each report names the dropped peer with exactly its IPs not over the threshold among the peers left just then. */
  lemma {:induction false} ReportsByRecount(db: Db, ps: seq<PeerId>, db': Db, i: nat)
    requires Exact(db) && BannedShrunk(db, ps, db') && i < |ps|
    ensures |Reports(db, ps)| == |ps|
    ensures ps[i] in db.peers &&
            Reports(db, ps)[i] == (ps[i], OverByRecount(db.peers - Elements(ps[..i + 1]), Ips(db.peers[ps[i]]), false))
    decreases |ps|
  {
    var after := EvictedBanned(db, ps[0]);
    ExactAfterBannedEviction(db, ps[0]);
    OverIsRecount(after.peers, after.perIp, Ips(db.peers[ps[0]]), false);
    if |ps| > 1 {
      ReportsByRecount(after, ps[1..], db', if i == 0 then 0 else i - 1);
    }
    if i == 0 {
      assert Elements(ps[..1]) == {ps[0]};
    } else {
      ElementsCons(db.peers, ps[..i + 1]);
      assert ps[..i + 1][1..] == ps[1..][..i];
    }
  }

  // ----- The disconnected loop -----

  lemma DisconnectedSplit(peers: Peers)
    ensures |DisconnectedPeers(peers)| == |Droppable(peers)| + |TrustedDisconnected(peers)|
  {
    assert DisconnectedPeers(peers) == Droppable(peers) + TrustedDisconnected(peers);
  }

  lemma AfterDrop(peers: Peers, p: PeerId)
    requires p in Droppable(peers)
    ensures Droppable(peers - {p}) == Droppable(peers) - {p}
    ensures TrustedDisconnected(peers - {p}) == TrustedDisconnected(peers)
    ensures DisconnectedPeers(peers - {p}) == DisconnectedPeers(peers) - {p}
    ensures BannedPeers(peers - {p}) == BannedPeers(peers)
    ensures BannedIps(peers - {p}) == BannedIps(peers)
  {
    BannedIpsWithout(peers, p);
  }

  /** With only trusted peers left the counter falls to the limit and nothing is dropped. */
  lemma {:induction false} OnlyTrustedLeft(db: Db, ps: seq<PeerId>, db': Db)
    requires DisconnectedShrunk(db, ps, db') && Droppable(db.peers) == {}
    ensures ps == [] && db' == db.(disconnected := if db.disconnected > MAX_DC_PEERS then MAX_DC_PEERS else db.disconnected)
    decreases db.disconnected
  {
    if db.disconnected > MAX_DC_PEERS {
      OnlyTrustedLeft(db.(disconnected := db.disconnected - 1), ps, db');
    }
  }

  /** What is dropped: at most the excess, untrusted, oldest first. */
  lemma {:induction false} DisconnectedLoop(db: Db, ps: seq<PeerId>, db': Db)
    requires DisconnectedShrunk(db, ps, db')
    ensures db'.peers == db.peers - Elements(ps)
    ensures OldestFirst(db.peers, Droppable(db.peers), ps)
    decreases db.disconnected
  {
    if db.disconnected <= MAX_DC_PEERS {
      assert db.peers - Elements(ps) == db.peers;
    } else if Droppable(db.peers) == {} {
      OnlyTrustedLeft(db, ps, db');
      assert db.peers - Elements(ps) == db.peers;
    } else {
      AfterDrop(db.peers, ps[0]);
      DisconnectedLoop(EvictedDisconnected(db, ps[0]), ps[1..], db');
      OldestFirstCons(db.peers, Droppable(db.peers), ps);
      ElementsCons(db.peers, ps);
    }
  }

  function OverLimit(n: nat): nat { if n > MAX_DC_PEERS then n - MAX_DC_PEERS else 0 }

  lemma {:induction false} DisconnectedLoopCounts(db: Db, ps: seq<PeerId>, db': Db)
    requires DisconnectedShrunk(db, ps, db') && db.disconnected == |DisconnectedPeers(db.peers)|
    ensures |ps| == Min(|Droppable(db.peers)|, OverLimit(db.disconnected))
    ensures |DisconnectedPeers(db'.peers)| == |DisconnectedPeers(db.peers)| - |ps|
    ensures BannedPeers(db'.peers) == BannedPeers(db.peers) && BannedIps(db'.peers) == BannedIps(db.peers)
    ensures db'.disconnected == Min(db.disconnected, MAX_DC_PEERS)
    ensures db'.banned == db.banned && db'.perIp == db.perIp
    decreases db.disconnected
  {
    if db.disconnected <= MAX_DC_PEERS {
    } else if Droppable(db.peers) == {} {
      OnlyTrustedLeft(db, ps, db');
    } else {
      AfterDrop(db.peers, ps[0]);
      DisconnectedLoopCounts(EvictedDisconnected(db, ps[0]), ps[1..], db');
    }
  }

  /** From exact counters, the loop leaves them exact if and only if the trusted disconnected peers fit the limit. */
  lemma ExactUnlessTooManyTrusted(db: Db, ps: seq<PeerId>, db': Db)
    requires Exact(db) && DisconnectedShrunk(db, ps, db')
    ensures Exact(db') <==> |TrustedDisconnected(db.peers)| <= MAX_DC_PEERS
  {
    DisconnectedLoopCounts(db, ps, db');
    DisconnectedSplit(db.peers);
    if |TrustedDisconnected(db.peers)| <= MAX_DC_PEERS {
      assert forall ip :: Count(db.perIp, ip) == BannedIps(db.peers)[ip];
    }
  }
}
