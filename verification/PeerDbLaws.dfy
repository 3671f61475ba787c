/** What the connection states, bans and scores of the peer database mean across calls, in terms of the fields alone. */
module PeerDbLaws {
  import opened Common
  import opened PeerDb
  import opened PeerDbEviction
  import opened PeerDatabase

  function StatusOf(db: Db, p: PeerId): ConnectionStatus {
    if p in db.peers then db.peers[p].status else Unknown
  }

  predicate Marked(status: ConnectionStatus) {
    status == Disconnecting(true)
  }

  // ----- One request -----

  /** A request concerns one peer. */
  lemma OthersAreUntouched(db: Db, p: PeerId, to: NewConnectionState, now: Instant, trustAll: bool, q: PeerId)
    requires q != p
    ensures var after := Updated(db, p, to, now, trustAll);
            p in after.peers && (q in after.peers <==> q in db.peers) && (q in db.peers ==> after.peers[q] == db.peers[q])
  {}

  /** A peer that is banned ends up banned once it is disconnected, and is reported as ready to be banned exactly once it is. */
  lemma BanIsCarriedOut(db: Db, p: PeerId, first: Instant, second: Instant, trustAll: bool)
    ensures var was := StatusOf(db, p);
            var one := Updated(db, p, ToBanned, first, trustAll);
            var two := Updated(one, p, ToDisconnected, second, trustAll);
            var asked, done := BanOperationFor(db, p, ToBanned, first, trustAll), BanOperationFor(one, p, ToDisconnected, second, trustAll);
            && two.peers[p].status.Banned? && (one.peers[p].status.Banned? || Marked(one.peers[p].status))
            && (one.peers[p].isTrusted || one.peers[p].score == ScoreBanned)
            && (asked.Some? && asked.value.ReadyToBan? <==> was.Disconnected? || was.Unknown? || was.Banned?)
            && (asked == Some(DisconnectThePeer) <==> was.Connected? || was.Dialing?)
            && (asked == Some(PeerDisconnecting) <==> was.Disconnecting?)
            && (done.Some? && done.value.ReadyToBan? <==> !(asked.Some? && asked.value.ReadyToBan?))
            && (two.banned == db.banned <==> was.Banned?)
  {}

  /** A disconnect bans only a peer that was banned or marked to be; it keeps the time of what it does not change. */
  lemma DisconnectBansOnlyMarked(db: Db, p: PeerId, now: Instant, trustAll: bool)
    ensures var was, after := StatusOf(db, p), Updated(db, p, ToDisconnected, now, trustAll);
            var status := after.peers[p].status;
            && (status.Banned? <==> was.Banned? || Marked(was)) && (status.Disconnected? <==> !status.Banned?)
            && status.since == (if was.Banned? || was.Disconnected? then was.since else now)
            && after.peers[p].subnets == {}
            && (BanOperationFor(db, p, ToDisconnected, now, trustAll) == Some(TemporaryBan) <==> was == Disconnecting(false))
  {}

  /** An unban leaves nobody banned, keeps the time, and does nothing else. */
  lemma UnbanLiftsTheBan(db: Db, p: PeerId, now: Instant, trustAll: bool)
    ensures var was, status := StatusOf(db, p), Updated(db, p, ToUnbanned, now, trustAll).peers[p].status;
            if was.Banned? then status == Disconnected(was.since) else status == was
  {}

  /** A dial moves exactly the peers that are not connected, being dialled or being disconnected. */
  lemma DialsWhoIsApart(db: Db, p: PeerId, now: Instant, trustAll: bool)
    ensures var was, status := StatusOf(db, p), Updated(db, p, ToDialing, now, trustAll).peers[p].status;
            if was.Connected? || was.Dialing? || was.Disconnecting? then status == was else status == Dialing(now)
  {}

  lemma DisconnectingIsAsAsked(db: Db, p: PeerId, toBan: bool, now: Instant, trustAll: bool)
    ensures Updated(db, p, ToDisconnecting(toBan), now, trustAll).peers[p].status == Disconnecting(toBan)
    ensures BanOperationFor(db, p, ToDisconnecting(toBan), now, trustAll).None?
  {}

  function Ins(status: ConnectionStatus): nat {
    if status.Connected? then status.nIn else 0
  }

  function Outs(status: ConnectionStatus): nat {
    if status.Connected? then status.nOut else 0
  }

  /** A connection counts for its own direction, and its address is remembered. */
  lemma ConnectionIsCounted(db: Db, p: PeerId, address: Multiaddr, direction: Direction, now: Instant, trustAll: bool)
    ensures var was, after := StatusOf(db, p), Updated(db, p, ToConnected(address, direction), now, trustAll).peers[p];
            && after.status.Connected? && address in after.seen
            && Ins(after.status) + Outs(after.status) == Ins(was) + Outs(was) + 1
            && (direction.Incoming? ==> Ins(after.status) == Ins(was) + 1) && (direction.Outgoing? ==> Outs(after.status) == Outs(was) + 1)
            && (forall a :: a in after.seen <==> a == address || (p in db.peers && a in db.peers[p].seen))
  {}

  // ----- Sequences of requests for one peer -----

  datatype Request = Request(to: NewConnectionState, now: Instant)

  function After(db: Db, p: PeerId, rs: seq<Request>, trustAll: bool): Db {
    if rs == [] then db
    else Updated(After(db, p, rs[..|rs| - 1], trustAll), p, rs[|rs| - 1].to, rs[|rs| - 1].now, trustAll)
  }

  lemma NotBannedOtherwise(db: Db, p: PeerId, r: Request, trustAll: bool)
    requires !r.to.ToBanned? && r.to != ToDisconnecting(true)
    ensures var was, status := StatusOf(db, p), StatusOf(Updated(db, p, r.to, r.now, trustAll), p);
            status.Banned? || Marked(status) ==> was.Banned? || Marked(was)
  {}

  /** Whoever is banned or marked in the end was so at first, or a request asked for it. */
  lemma {:induction false} EveryBanWasAskedFor(db: Db, p: PeerId, rs: seq<Request>, trustAll: bool)
    requires var end := StatusOf(After(db, p, rs, trustAll), p); end.Banned? || Marked(end)
    ensures StatusOf(db, p).Banned? || Marked(StatusOf(db, p)) || exists i :: 0 <= i < |rs| && (rs[i].to.ToBanned? || rs[i].to == ToDisconnecting(true))
  {
    hide Updated;
    if rs != [] {
      var init, last := rs[..|rs| - 1], rs[|rs| - 1];
      if !last.to.ToBanned? && last.to != ToDisconnecting(true) {
        NotBannedOtherwise(After(db, p, init, trustAll), p, last, trustAll);
        EveryBanWasAskedFor(db, p, init, trustAll);
        if i :| 0 <= i < |init| && (init[i].to.ToBanned? || init[i].to == ToDisconnecting(true)) {
          assert rs[i] == init[i];
        }
      }
    }
  }

  /** A ban lasts, with its time, until the peer is connected, dialled, disconnected actively or unbanned. */
  lemma {:induction false} BanLasts(db: Db, p: PeerId, rs: seq<Request>, trustAll: bool)
    requires StatusOf(db, p).Banned? && forall i :: 0 <= i < |rs| ==> rs[i].to.ToBanned? || rs[i].to.ToDisconnected?
    ensures StatusOf(After(db, p, rs, trustAll), p) == StatusOf(db, p)
  {
    if rs != [] {
      BanLasts(db, p, rs[..|rs| - 1], trustAll);
    }
  }

  function CountOf(rs: seq<Request>, direction: Direction): nat {
    if rs == [] then 0
    else CountOf(rs[..|rs| - 1], direction) + if rs[|rs| - 1].to.ToConnected? && rs[|rs| - 1].to.direction == direction then 1 else 0
  }

  /** While a peer only connects, its connections are those it had and one for each request, by direction. */
  lemma {:induction false} ConnectionsAreCounted(db: Db, p: PeerId, rs: seq<Request>, trustAll: bool)
    requires forall i :: 0 <= i < |rs| ==> rs[i].to.ToConnected?
    ensures var was, end := StatusOf(db, p), StatusOf(After(db, p, rs, trustAll), p);
            && Ins(end) == Ins(was) + CountOf(rs, Incoming) && Outs(end) == Outs(was) + CountOf(rs, Outgoing) && (rs != [] ==> end.Connected?)
  {
    if rs != [] {
      ConnectionsAreCounted(db, p, rs[..|rs| - 1], trustAll);
      var last := rs[|rs| - 1];
      ConnectionIsCounted(After(db, p, rs[..|rs| - 1], trustAll), p, last.to.address, last.to.direction, last.now, trustAll);
    }
  }

  // ----- Addresses -----

  /** The addresses named by a ban are those with more than five banned peers, and those named by an unban the others. */
  lemma {:induction false} NamedAddresses(counts: IpCounts, ips: seq<Ip>, over: bool, ip: Ip)
    ensures ip in Over(counts, ips, over) <==> ip in ips && (Count(counts, ip) > 5 <==> over)
    ensures |Over(counts, ips, true)| + |Over(counts, ips, false)| == |ips|
  {
    if ips != [] {
      NamedAddresses(counts, ips[1..], over, ip);
      assert ips == [ips[0]] + ips[1..];
    }
  }

  // ----- Scores -----

  /** A report bans exactly when the score of an untrusted peer becomes banned, and then the peer is banned or marked. */
  lemma ReportBansIff(db: Db, p: PeerId, score: ScoreState, now: Instant, trustAll: bool)
    requires p in db.peers
    ensures var was, after := db.peers[p], Reported(db, p, score, now, trustAll).peers[p];
            var outcome := ReportOutcome(db, p, score, now, trustAll);
            && (outcome.Ban? <==> !was.isTrusted && score == ScoreBanned && was.score != ScoreBanned)
            && (outcome.Ban? ==> after.status.Banned? || Marked(after.status))
            && (after.isTrusted == was.isTrusted) && (if was.isTrusted then after.score == was.score else after.score == score)
  {}

  /** It disconnects exactly when the score of an untrusted connected or dialled peer becomes that of a forced disconnect. */
  lemma ReportDisconnectsIff(db: Db, p: PeerId, score: ScoreState, now: Instant, trustAll: bool)
    requires p in db.peers
    ensures var was, after := db.peers[p], Reported(db, p, score, now, trustAll).peers[p];
            var outcome := ReportOutcome(db, p, score, now, trustAll);
            && (outcome.MustDisconnect? ==> after.status == Disconnecting(false))
            && (outcome.NoUpdate? ==> after.status == was.status)
            && (was.score != ForcedDisconnect ==>
                  (outcome.MustDisconnect? <==> !was.isTrusted && score == ForcedDisconnect && (was.status.Connected? || was.status.Dialing?)))
            && (was.score == ForcedDisconnect ==> !outcome.MustDisconnect?)
  {}

  /** So a peer reported into the ban is banned after its disconnect. */
  lemma ReportedIsBannedInTheEnd(db: Db, p: PeerId, now: Instant, later: Instant, trustAll: bool)
    requires p in db.peers && !db.peers[p].isTrusted && db.peers[p].score != ScoreBanned
    ensures StatusOf(Updated(Reported(db, p, ScoreBanned, now, trustAll), p, ToDisconnected, later, trustAll), p).Banned?
  {
    ReportBansIff(db, p, ScoreBanned, now, trustAll);
    DisconnectBansOnlyMarked(Reported(db, p, ScoreBanned, now, trustAll), p, later, trustAll);
  }

  /** A decay of scores unbans exactly the untrusted peers whose score leaves the ban, unless they are to be disconnected. */
  lemma DecayUnbansIff(peers: Peers, scores: map<PeerId, ScoreState>, p: PeerId)
    ensures p in Unbans(peers, scores) <==>
            && p in peers && p in scores && !peers[p].isTrusted && peers[p].score == ScoreBanned && scores[p] != ScoreBanned
            && !(scores[p] == ForcedDisconnect && (peers[p].status.Connected? || peers[p].status.Dialing?))
  {}

  // ----- Requests for several peers -----

  /** Each listed peer takes the step, and the others stay. */
  lemma {:induction false} EachTakesTheStep(db: Db, ps: seq<PeerId>, to: NewConnectionState, now: Instant, trustAll: bool, q: PeerId)
    requires to.ToDisconnected? || to.ToUnbanned?
    ensures var after := UpdatedAll(db, ps, to, now, trustAll);
            StatusOf(after, q) == if q in ps then StatusOf(Updated(db, q, to, now, trustAll), q) else StatusOf(db, q)
    decreases |ps|
  {
    hide Moved;
    if ps != [] {
      var next := Updated(db, ps[0], to, now, trustAll);
      EachTakesTheStep(next, ps[1..], to, now, trustAll, q);
      StepOnce(db, ps[0], to, now, trustAll, q);
      assert q in ps <==> q == ps[0] || q in ps[1..];
    }
  }

  lemma StepOnce(db: Db, p: PeerId, to: NewConnectionState, now: Instant, trustAll: bool, q: PeerId)
    requires to.ToDisconnected? || to.ToUnbanned?
    ensures var next := Updated(db, p, to, now, trustAll);
            && StatusOf(Updated(next, p, to, now, trustAll), p) == StatusOf(next, p)
            && (q != p ==> StatusOf(next, q) == StatusOf(db, q) && StatusOf(Updated(next, q, to, now, trustAll), q) == StatusOf(Updated(db, q, to, now, trustAll), q))
  {}

  /** Exactly the dials older than fifteen seconds are given up. */
  lemma OldDialsAreGivenUp(db: Db, now: Instant, db': Db, trustAll: bool, q: PeerId)
    requires Step(db, CleanupDialing(now), db', trustAll)
    ensures var was := StatusOf(db, q);
            StatusOf(db', q) == if was.Dialing? && was.since + 15_000_000_000 < now then Disconnected(now) else was
  {
    var ps :| Elements(ps) == TimedOut(db.peers, now) && db' == UpdatedAll(db, ps, ToDisconnected, now, trustAll);
    EachTakesTheStep(db, ps, ToDisconnected, now, trustAll, q);
    assert q in ps <==> q in Elements(ps);
    DisconnectBansOnlyMarked(db, q, now, trustAll);
  }

  /** After a decay nobody whose score left the ban is banned, save who is to be disconnected, and every other status stays. */
  lemma DecayLiftsBans(db: Db, scores: map<PeerId, ScoreState>, now: Instant, db': Db, trustAll: bool, q: PeerId)
    requires Step(db, Op.UpdateScores(scores, now), db', trustAll)
    ensures var was := StatusOf(db, q);
            StatusOf(db', q) == if q in Unbans(db.peers, scores) && was.Banned? then Disconnected(was.since) else was
  {
    var decayed := db.(peers := Decayed(db.peers, scores));
    var ps :| Elements(ps) == Unbans(db.peers, scores) && db' == UpdatedAll(decayed, ps, ToUnbanned, now, trustAll);
    EachTakesTheStep(decayed, ps, ToUnbanned, now, trustAll, q);
    assert q in ps <==> q in Elements(ps);
    assert StatusOf(decayed, q) == StatusOf(db, q);
    UnbanLiftsTheBan(decayed, q, now, trustAll);
  }

  // ----- Eviction -----

  /** Who is evicted as banned was banned no later than any banned peer that stays, and the same of the disconnected, of whom no trusted one goes. */
  lemma OldestAreEvicted(first: Db, banned: seq<PeerId>, dropped: seq<PeerId>, reports: seq<(PeerId, seq<Ip>)>, after: Db, p: PeerId, q: PeerId)
    requires EvictionSpec(first, banned, dropped, reports, after) && q in after.peers
    ensures q in first.peers && after.peers[q] == first.peers[q]
    ensures p in banned && first.peers[q].status.Banned? ==>
              p in first.peers && first.peers[p].status.Banned? && first.peers[p].status.since <= first.peers[q].status.since
    ensures p in dropped ==> p in first.peers && first.peers[p].status.Disconnected? && !first.peers[p].isTrusted
    ensures p in dropped && first.peers[q].status.Disconnected? && !first.peers[q].isTrusted ==> first.peers[p].status.since <= first.peers[q].status.since
  {
    if p in banned {
      var i :| 0 <= i < |banned| && banned[i] == p;
      assert q !in Elements(banned);
      assert q !in banned[..i];
    }
    if p in dropped {
      var i :| 0 <= i < |dropped| && dropped[i] == p;
      assert q !in Elements(dropped);
      assert q !in dropped[..i];
    }
  }
}
