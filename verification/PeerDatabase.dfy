/** The peer database object, and what its counters keep over every run of its operations. */
module PeerDatabase {
  import opened Common
  import opened PeerDb
  import opened PeerDbEviction

  datatype Transition = ToDisconnect | ToBan | ToUnban | NoAction

  /** What a change of score asks for; `info` carries the new score. */
  function ScoreTransition(previous: ScoreState, info: PeerInfo): Transition {
    match (info.score, previous)
    case (ScoreBanned, ScoreBanned) => NoAction
    case (ScoreBanned, _) => ToBan
    case (ForcedDisconnect, ForcedDisconnect) => NoAction
    case (ForcedDisconnect, _) =>
      if info.status.Connected? || info.status.Dialing? then ToDisconnect
      else if previous == ScoreBanned then ToUnban
      else NoAction
    case (Healthy, ScoreBanned) => ToUnban
    case (Healthy, _) => NoAction
  }

  // ----- Each operation as a change of the database -----

  /** A requested transition for several peers in turn. */
  function UpdatedAll(db: Db, ps: seq<PeerId>, to: NewConnectionState, now: Instant, trustAll: bool): Db
    decreases ps
  {
    if ps == [] then db else UpdatedAll(Updated(db, ps[0], to, now, trustAll), ps[1..], to, now, trustAll)
  }

  predicate DialTimedOut(info: PeerInfo, now: Instant) {
    info.status.Dialing? && info.status.since + DIAL_TIMEOUT < now
  }

  function TimedOut(peers: Peers, now: Instant): set<PeerId> {
    set p | p in peers && DialTimedOut(peers[p], now)
  }

  function Scored(info: PeerInfo, score: ScoreState): PeerInfo {
    if info.isTrusted then info else info.(score := score)
  }

  /** A penalty for a peer after which its score state is `score`. */
  function Reported(db: Db, p: PeerId, score: ScoreState, now: Instant, trustAll: bool): Db {
    if p !in db.peers then db
    else
      var info := Scored(db.peers[p], score);
      var db' := db.(peers := db.peers[p := info]);
      match ScoreTransition(db.peers[p].score, info)
      case ToBan => Updated(db', p, ToBanned, now, trustAll)
      case ToDisconnect => Updated(db', p, ToDisconnecting(false), now, trustAll)
      case _ => db'
  }

  /** What a change of score asks the peer manager to do. */
  datatype ScoreUpdate = Ban(operation: BanOperation) | MustDisconnect | NoUpdate

  function ReportOutcome(db: Db, p: PeerId, score: ScoreState, now: Instant, trustAll: bool): ScoreUpdate {
    if p !in db.peers then NoUpdate
    else
      var info := Scored(db.peers[p], score);
      match ScoreTransition(db.peers[p].score, info)
      case ToBan =>
        (match BanOperationFor(db.(peers := db.peers[p := info]), p, ToBanned, now, trustAll)
         case Some(operation) => Ban(operation)
         case None => NoUpdate)
      case ToDisconnect => MustDisconnect
      case _ => NoUpdate
  }

  /** The unbanned peers in turn, each with its addresses that are not banned right after its own unban. */
  function UnbanReports(db: Db, ps: seq<PeerId>, now: Instant, trustAll: bool): seq<(PeerId, seq<Ip>)>
    decreases ps
  {
    if ps == [] then []
    else
      var next := Updated(db, ps[0], ToUnbanned, now, trustAll);
      [(ps[0], Over(next.perIp, Ips(InfoOf(next.peers, ps[0], trustAll)), false))] + UnbanReports(next, ps[1..], now, trustAll)
  }

  /** The periodic decay: `scores` gives the new score state of the peers it changes. */
  function Decayed(peers: Peers, scores: map<PeerId, ScoreState>): Peers {
    map p | p in peers :: if p in scores then Scored(peers[p], scores[p]) else peers[p]
  }

  function Unbans(peers: Peers, scores: map<PeerId, ScoreState>): set<PeerId> {
    set p | p in peers && ScoreTransition(peers[p].score, Decayed(peers, scores)[p]).ToUnban?
  }

  datatype Op =
    | Request(p: PeerId, to: NewConnectionState, now: Instant)
    | Disconnect(p: PeerId, now: Instant)
    | CleanupDialing(now: Instant)
    | Report(p: PeerId, score: ScoreState, now: Instant)
    | UpdateScores(scores: map<PeerId, ScoreState>, now: Instant)
    | SetTrusted(p: PeerId)
    | UnsetTrusted(p: PeerId)

  ghost predicate Disconnects(db: Db, p: PeerId, now: Instant, trustAll: bool, banned: seq<PeerId>, dropped: seq<PeerId>, db': Db) {
    exists mid :: BannedShrunk(Updated(db, p, ToDisconnected, now, trustAll), banned, mid) && DisconnectedShrunk(mid, dropped, db')
  }

  /** One operation; hash order and equal ages leave some results open. */
  ghost predicate Step(db: Db, op: Op, db': Db, trustAll: bool) {
    match op
    case Request(p, to, now) => db' == Updated(db, p, to, now, trustAll)
    case Disconnect(p, now) => exists banned, dropped :: Disconnects(db, p, now, trustAll, banned, dropped, db')
    case CleanupDialing(now) =>
      exists ps :: Elements(ps) == TimedOut(db.peers, now) && db' == UpdatedAll(db, ps, ToDisconnected, now, trustAll)
    case Report(p, score, now) => db' == Reported(db, p, score, now, trustAll)
    case UpdateScores(scores, now) =>
      exists ps :: Elements(ps) == Unbans(db.peers, scores) &&
                   db' == UpdatedAll(db.(peers := Decayed(db.peers, scores)), ps, ToUnbanned, now, trustAll)
    case SetTrusted(p) =>
      db' == db.(peers := db.peers[p := if p in db.peers then db.peers[p].(score := Healthy, isTrusted := true) else TRUSTED_INFO])
    case UnsetTrusted(p) =>
      db' == if p in db.peers then db.(peers := db.peers[p := db.peers[p].(score := Healthy, isTrusted := false)]) else db
  }

  /** What a caller has to avoid: disconnecting a banned peer, and more trusted disconnected peers than are remembered. */
  ghost predicate Safe(db: Db, op: Op, trustAll: bool) {
    match op
    case Request(p, to, _) => !(p in db.peers && db.peers[p].status.Banned? && to.ToDisconnecting?)
    case Disconnect(p, now) => |TrustedDisconnected(Updated(db, p, ToDisconnected, now, trustAll).peers)| <= MAX_DC_PEERS
    case _ => true
  }

  // ----- Exactness over runs -----

  lemma {:induction false} UpdatedAllExact(db: Db, ps: seq<PeerId>, to: NewConnectionState, now: Instant, trustAll: bool)
    requires Exact(db) && !to.ToDisconnecting?
    ensures Exact(UpdatedAll(db, ps, to, now, trustAll))
    decreases ps
  {
    if ps != [] {
      ExactUnlessBannedDisconnects(db, ps[0], to, now, trustAll);
      UpdatedAllExact(Updated(db, ps[0], to, now, trustAll), ps[1..], to, now, trustAll);
    }
  }

  /** A change that leaves status and addresses alone leaves the recount alone. */
  lemma SameRecount(peers: Peers, p: PeerId, info: PeerInfo)
    requires if p in peers then info.status == peers[p].status && info.seen == peers[p].seen else info.status.Unknown?
    ensures |DisconnectedPeers(peers[p := info])| == |DisconnectedPeers(peers)|
    ensures |BannedPeers(peers[p := info])| == |BannedPeers(peers)|
    ensures BannedIps(peers[p := info]) == BannedIps(peers)
  {
    StatusCounts(peers, p, info);
    BannedIpsUpdated(peers, p, info);
    if p in peers { BannedIpsWithout(peers, p); }
  }

  /** Two databases whose peers have the same statuses and addresses. */
  ghost predicate SameStatuses(a: Peers, b: Peers) {
    a.Keys == b.Keys && forall p :: p in a ==> a[p].status == b[p].status && a[p].seen == b[p].seen
  }

  lemma {:induction false} SameStatusesSameIps(a: Peers, b: Peers)
    requires SameStatuses(a, b)
    ensures BannedPeers(a) == BannedPeers(b) && BannedIps(a) == BannedIps(b)
    decreases |a|
  {
    assert BannedPeers(a) == BannedPeers(b);
    if BannedPeers(a) != {} {
      var q := BannedIpsUnfold(a);
      Smaller(a, q);
      SameStatusesSameIps(a - {q}, b - {q});
      BannedIpsWithout(b, q);
    }
  }

  lemma DecayedRecount(peers: Peers, scores: map<PeerId, ScoreState>)
    ensures DisconnectedPeers(Decayed(peers, scores)) == DisconnectedPeers(peers)
    ensures BannedPeers(Decayed(peers, scores)) == BannedPeers(peers)
    ensures BannedIps(Decayed(peers, scores)) == BannedIps(peers)
  {
    assert SameStatuses(Decayed(peers, scores), peers);
    SameStatusesSameIps(Decayed(peers, scores), peers);
  }

  lemma ReportedExact(db: Db, p: PeerId, score: ScoreState, now: Instant, trustAll: bool)
    requires Exact(db)
    ensures Exact(Reported(db, p, score, now, trustAll))
  {
    if p in db.peers {
      var info := Scored(db.peers[p], score);
      var db' := db.(peers := db.peers[p := info]);
      SameRecount(db.peers, p, info);
      assert Exact(db') by { assert forall ip :: Count(db.perIp, ip) == BannedIps(db.peers)[ip]; }
      match ScoreTransition(db.peers[p].score, info)
      case ToBan => ExactUnlessBannedDisconnects(db', p, ToBanned, now, trustAll);
      case ToDisconnect => ExactUnlessBannedDisconnects(db', p, ToDisconnecting(false), now, trustAll);
      case _ =>
    }
  }

  /** With exact counters, a ban asks for exactly the peer's addresses that a recount puts over the threshold. */
  lemma ReportedBanIsRecount(db: Db, p: PeerId, score: ScoreState, now: Instant, trustAll: bool, ips: seq<Ip>)
    requires Exact(db) && ReportOutcome(db, p, score, now, trustAll) == Ban(ReadyToBan(ips))
    ensures var after := Reported(db, p, score, now, trustAll);
            p in after.peers && ips == OverByRecount(after.peers, Ips(after.peers[p]), true)
  {
    var after := Reported(db, p, score, now, trustAll);
    ReportedExact(db, p, score, now, trustAll);
    OverIsRecount(after.peers, after.perIp, Ips(after.peers[p]), true);
  }

  /** With exact counters, each unbanned peer is reported with exactly its addresses not over the threshold among the peers left banned just then. */
  lemma {:induction false} UnbansByRecount(db: Db, ps: seq<PeerId>, now: Instant, trustAll: bool, i: nat)
    requires Exact(db) && i < |ps|
    ensures |UnbanReports(db, ps, now, trustAll)| == |ps|
    ensures var then' := UpdatedAll(db, ps[..i + 1], ToUnbanned, now, trustAll);
            ps[i] in then'.peers &&
            UnbanReports(db, ps, now, trustAll)[i] == (ps[i], OverByRecount(then'.peers, Ips(then'.peers[ps[i]]), false))
    decreases |ps|
  {
    hide Updated, UpdatedAll, UnbanReports, Over, OverByRecount, Exact;
    var next := Updated(db, ps[0], ToUnbanned, now, trustAll);
    UnbanOne(db, ps, now, trustAll);
    UpdatedFirst(db, ps[..i + 1], ToUnbanned, now, trustAll);
    assert |ps| == 1 ==> ps[1..] == [];
    if |ps| > 1 {
      UnbansByRecount(next, ps[1..], now, trustAll, if i == 0 then 0 else i - 1);
    }
    if i == 0 {
      assert ps[..1][1..] == [];
    } else {
      assert ps[..i + 1][1..] == ps[1..][..i];
    }
  }

  lemma UpdatedFirst(db: Db, ps: seq<PeerId>, to: NewConnectionState, now: Instant, trustAll: bool)
    requires ps != []
    ensures UpdatedAll(db, ps, to, now, trustAll) == UpdatedAll(Updated(db, ps[0], to, now, trustAll), ps[1..], to, now, trustAll)
    ensures UpdatedAll(Updated(db, ps[0], to, now, trustAll), [], to, now, trustAll) == Updated(db, ps[0], to, now, trustAll)
  {}

  /** The first report, by a recount. */
  lemma UnbanOne(db: Db, ps: seq<PeerId>, now: Instant, trustAll: bool)
    requires Exact(db) && ps != []
    ensures var next := Updated(db, ps[0], ToUnbanned, now, trustAll);
            && Exact(next) && ps[0] in next.peers
            && UnbanReports(db, ps, now, trustAll) ==
               [(ps[0], OverByRecount(next.peers, Ips(next.peers[ps[0]]), false))] + UnbanReports(next, ps[1..], now, trustAll)
            && UnbanReports(next, [], now, trustAll) == []
  {
    ExactUnlessBannedDisconnects(db, ps[0], ToUnbanned, now, trustAll);
    var next := Updated(db, ps[0], ToUnbanned, now, trustAll);
    assert ps[0] in next.peers;
    hide Updated, Exact;
    OverIsRecount(next.peers, next.perIp, Ips(next.peers[ps[0]]), false);
  }

  lemma {:induction false} BannedLoopKeepsTrusted(db: Db, ps: seq<PeerId>, db': Db)
    requires BannedShrunk(db, ps, db')
    ensures TrustedDisconnected(db'.peers) == TrustedDisconnected(db.peers)
    decreases |ps|
  {
    if ps != [] {
      BannedLoopKeepsTrusted(EvictedBanned(db, ps[0]), ps[1..], db');
      assert TrustedDisconnected(db.peers - {ps[0]}) == TrustedDisconnected(db.peers);
    }
  }

  lemma DisconnectExact(db: Db, p: PeerId, now: Instant, trustAll: bool, banned: seq<PeerId>, dropped: seq<PeerId>, db': Db)
    requires Exact(db) && Disconnects(db, p, now, trustAll, banned, dropped, db')
    ensures Exact(db') <==> |TrustedDisconnected(Updated(db, p, ToDisconnected, now, trustAll).peers)| <= MAX_DC_PEERS
  {
    var first := Updated(db, p, ToDisconnected, now, trustAll);
    var mid :| BannedShrunk(first, banned, mid) && DisconnectedShrunk(mid, dropped, db');
    ExactUnlessBannedDisconnects(db, p, ToDisconnected, now, trustAll);
    BannedLoop(first, banned, mid);
    BannedLoopKeepsTrusted(first, banned, mid);
    ExactUnlessTooManyTrusted(mid, dropped, db');
  }

  /** From exact counters, an operation keeps them exact if and only if it is safe. */
  lemma StepExact(db: Db, op: Op, db': Db, trustAll: bool)
    requires Exact(db) && Step(db, op, db', trustAll)
    ensures Exact(db') <==> Safe(db, op, trustAll)
  {
    match op
    case Request(p, to, now) =>
      ExactUnlessBannedDisconnects(db, p, to, now, trustAll);
    case Disconnect(p, now) =>
      var banned, dropped :| Disconnects(db, p, now, trustAll, banned, dropped, db');
      DisconnectExact(db, p, now, trustAll, banned, dropped, db');
    case CleanupDialing(now) =>
      var ps :| Elements(ps) == TimedOut(db.peers, now) && db' == UpdatedAll(db, ps, ToDisconnected, now, trustAll);
      UpdatedAllExact(db, ps, ToDisconnected, now, trustAll);
    case Report(p, score, now) =>
      ReportedExact(db, p, score, now, trustAll);
    case UpdateScores(scores, now) =>
      var decayed := db.(peers := Decayed(db.peers, scores));
      DecayedRecount(db.peers, scores);
      assert Exact(decayed) by { assert forall ip :: Count(db.perIp, ip) == BannedIps(db.peers)[ip]; }
      var ps :| Elements(ps) == Unbans(db.peers, scores) && db' == UpdatedAll(decayed, ps, ToUnbanned, now, trustAll);
      UpdatedAllExact(decayed, ps, ToUnbanned, now, trustAll);
    case SetTrusted(p) =>
      SameRecount(db.peers, p, db'.peers[p]);
      assert forall ip :: Count(db.perIp, ip) == BannedIps(db.peers)[ip];
    case UnsetTrusted(p) =>
      if p in db.peers { SameRecount(db.peers, p, db'.peers[p]); }
      assert forall ip :: Count(db.perIp, ip) == BannedIps(db.peers)[ip];
  }

  function Fresh(trusted: set<PeerId>): Db {
    Db(map p | p in trusted :: TRUSTED_INFO, 0, 0, map[])
  }

  ghost predicate Run(states: seq<Db>, ops: seq<Op>, trusted: set<PeerId>, trustAll: bool) {
    && |states| == |ops| + 1
    && states[0] == Fresh(trusted)
    && (forall i :: 0 <= i < |ops| ==> Step(states[i], ops[i], states[i + 1], trustAll))
  }

  lemma FreshExact(trusted: set<PeerId>)
    ensures Exact(Fresh(trusted))
  {
    var db := Fresh(trusted);
    assert BannedPeers(db.peers) == {} && DisconnectedPeers(db.peers) == {};
  }

  lemma {:induction false} RunExactUpTo(states: seq<Db>, ops: seq<Op>, trusted: set<PeerId>, trustAll: bool, k: nat)
    requires Run(states, ops, trusted, trustAll) && k < |states|
    requires forall i :: 0 <= i < k ==> Safe(states[i], ops[i], trustAll)
    ensures Exact(states[k])
  {
    if k == 0 {
      FreshExact(trusted);
    } else {
      RunExactUpTo(states, ops, trusted, trustAll, k - 1);
      assert Step(states[k - 1], ops[k - 1], states[k - 1 + 1], trustAll);
      StepExact(states[k - 1], ops[k - 1], states[k], trustAll);
    }
  }

  /** Over a whole run the counters equal the recount in every state if and only if every operation was safe. */
  lemma CountersAreExact(states: seq<Db>, ops: seq<Op>, trusted: set<PeerId>, trustAll: bool)
    requires Run(states, ops, trusted, trustAll)
    ensures (forall k :: 0 <= k < |states| ==> Exact(states[k])) <==> (forall i :: 0 <= i < |ops| ==> Safe(states[i], ops[i], trustAll))
  {
    if forall i :: 0 <= i < |ops| ==> Safe(states[i], ops[i], trustAll) {
      forall k | 0 <= k < |states|
        ensures Exact(states[k])
      {
        RunExactUpTo(states, ops, trusted, trustAll, k);
      }
    } else if forall k :: 0 <= k < |states| ==> Exact(states[k]) {
      forall i | 0 <= i < |ops|
        ensures Safe(states[i], ops[i], trustAll)
      {
        assert Exact(states[i]) && Exact(states[i + 1]);
        StepExact(states[i], ops[i], states[i + 1], trustAll);
      }
    }
  }

  /** A banned peer that is disconnected stays counted as banned. */
  lemma BanStaysCounted()
    ensures var db := Updated(Updated(Fresh({}), 0, ToBanned, 0, false), 0, ToDisconnecting(false), 0, false);
            db.banned == 1 && BannedPeers(db.peers) == {}
  {}

  // ----- One trusted peer too many -----

  function Crowd(n: nat): (ps: set<PeerId>)
    ensures |ps| == n && forall p: nat :: p in ps <==> p < n
  {
    if n == 0 then {} else Crowd(n - 1) + {n - 1}
  }

  /** The first `m` of `n` trusted peers are being dialled. */
  function Dialled(n: nat, m: nat): Db {
    Db(map p | p in Crowd(n) :: TRUSTED_INFO.(status := if p < m then Dialing(0) else Unknown), 0, 0, map[])
  }

  /** The first `m` dials have timed out. */
  function Lapsed(n: nat, m: nat, now: Instant): Db {
    Db(map p | p in Crowd(n) :: TRUSTED_INFO.(status := if p < m then Disconnected(now) else Dialing(0)), m, 0, map[])
  }

  function From(m: nat, n: nat): (ps: seq<PeerId>)
    requires m <= n
    ensures |ps| == n - m && forall i :: 0 <= i < |ps| ==> ps[i] == m + i
  {
    seq(n - m, i requires 0 <= i < n - m => m + i)
  }

  lemma DialOne(n: nat, m: nat)
    requires m < n
    ensures Updated(Dialled(n, m), m, ToDialing, 0, false) == Dialled(n, m + 1)
  {}

  lemma LapseOne(n: nat, m: nat, now: Instant)
    requires m < n
    ensures Updated(Lapsed(n, m, now), m, ToDisconnected, now, false) == Lapsed(n, m + 1, now)
  {}

  lemma {:induction false} LapseAll(n: nat, m: nat, now: Instant)
    requires m <= n
    ensures UpdatedAll(Lapsed(n, m, now), From(m, n), ToDisconnected, now, false) == Lapsed(n, n, now)
    decreases n - m
  {
    hide Updated, Lapsed;
    if m < n {
      LapseOne(n, m, now);
      assert From(m, n)[1..] == From(m + 1, n);
      LapseAll(n, m + 1, now);
    }
  }

  lemma AllTimedOut(n: nat, now: Instant)
    requires DIAL_TIMEOUT < now
    ensures Dialled(n, n) == Lapsed(n, 0, now) && TimedOut(Dialled(n, n).peers, now) == Crowd(n)
  {}

  lemma EverybodyInTurn(n: nat)
    ensures Elements(From(0, n)) == Crowd(n)
  {
    forall p: PeerId | p < n ensures p in From(0, n) {
      assert From(0, n)[p] == p;
    }
  }

  lemma LapseStep(n: nat, now: Instant)
    requires DIAL_TIMEOUT < now
    ensures Step(Dialled(n, n), CleanupDialing(now), Lapsed(n, n, now), false)
  {
    hide UpdatedAll, Dialled, Lapsed, TimedOut, Elements, From, Crowd;
    LapseAll(n, 0, now);
    AllTimedOut(n, now);
    EverybodyInTurn(n);
  }

  /** The counter falls, and nobody is dropped. */
  lemma CountDown(n: nat, now: Instant)
    requires n == MAX_DC_PEERS + 1
    ensures Step(Lapsed(n, n, now), Disconnect(0, now), Lapsed(n, n, now).(disconnected := n - 1), false)
    ensures DisconnectedPeers(Lapsed(n, n, now).peers) == Crowd(n)
  {
    var db := Lapsed(n, n, now);
    var after := db.(disconnected := n - 1);
    assert Updated(db, 0, ToDisconnected, now, false) == db;
    assert BannedShrunk(db, [], db);
    assert Droppable(db.peers) == {};
    assert DisconnectedShrunk(after, [], after);
    assert DisconnectedShrunk(db, [], after);
    assert Disconnects(db, 0, now, false, [], [], after);
  }

  /**
    A run that loses exactness without a banned peer: one trusted peer more is dialled than disconnected peers are
    remembered, all dials time out, and one more disconnect brings the counter below the true number. Nobody is dropped.
  */
  lemma TrustedAreNotDropped(n: nat, now: Instant) returns (states: seq<Db>, ops: seq<Op>)
    requires n == MAX_DC_PEERS + 1 && DIAL_TIMEOUT < now
    ensures Run(states, ops, Crowd(n), false)
    ensures var last := states[|states| - 1]; last.disconnected == MAX_DC_PEERS && |DisconnectedPeers(last.peers)| == n
  {
    hide Updated, Step, Lapsed, Dialled, Crowd;
    states := seq(n + 1, i requires 0 <= i < n + 1 => Dialled(n, i)) + [Lapsed(n, n, now), Lapsed(n, n, now).(disconnected := n - 1)];
    ops := seq(n, i requires 0 <= i < n => Request(i, ToDialing, 0)) + [CleanupDialing(now), Disconnect(0, now)];
    NobodyDialled(n);
    LapseStep(n, now);
    CountDown(n, now);
    forall i | 0 <= i < |ops|
      ensures Step(states[i], ops[i], states[i + 1], false)
    {
      if i < n { DialStep(n, i); }
    }
  }

  lemma NobodyDialled(n: nat)
    ensures Dialled(n, 0) == Fresh(Crowd(n))
  {}

  lemma DialStep(n: nat, m: nat)
    requires m < n
    ensures Step(Dialled(n, m), Request(m, ToDialing, 0), Dialled(n, m + 1), false)
  {
    DialOne(n, m);
  }

  /** Exactly which peers a disconnect evicts, and what it reports. */
  ghost predicate EvictionSpec(first: Db, banned: seq<PeerId>, dropped: seq<PeerId>, reports: seq<(PeerId, seq<Ip>)>, after: Db) {
    && after.peers == first.peers - Elements(banned) - Elements(dropped)
    && OldestFirst(first.peers, BannedPeers(first.peers), banned)
    && OldestFirst(first.peers, Droppable(first.peers), dropped)
    && |BannedPeers(after.peers)| == Min(|BannedPeers(first.peers)|, MAX_BANNED_PEERS)
    && |DisconnectedPeers(after.peers)| == Min(|DisconnectedPeers(first.peers)|, MAX_DC_PEERS)
    && |reports| == |banned|
    && (forall i :: 0 <= i < |banned| ==>
          reports[i] == (banned[i], OverByRecount(first.peers - Elements(banned[..i + 1]), Ips(first.peers[banned[i]]), false)))
  }

  lemma OldestFirstIn(small: Peers, big: Peers, among: set<PeerId>, ps: seq<PeerId>)
    requires among <= small.Keys <= big.Keys && (forall p :: p in among ==> small[p] == big[p])
    requires OldestFirst(small, among, ps)
    ensures OldestFirst(big, among, ps)
  {}

  lemma EvictedCounts(first: Db, banned: seq<PeerId>, mid: Db, dropped: seq<PeerId>, after: Db)
    requires Exact(first) && |TrustedDisconnected(first.peers)| <= MAX_DC_PEERS
    requires BannedShrunk(first, banned, mid) && DisconnectedShrunk(mid, dropped, after)
    ensures |BannedPeers(after.peers)| == Min(|BannedPeers(first.peers)|, MAX_BANNED_PEERS)
    ensures |DisconnectedPeers(after.peers)| == Min(|DisconnectedPeers(first.peers)|, MAX_DC_PEERS)
  {
    BannedLoop(first, banned, mid);
    BannedLoopCount(first, banned, mid);
    BannedLoopKeepsTrusted(first, banned, mid);
    ExactUnlessTooManyTrusted(mid, dropped, after);
    DisconnectedLoopCounts(mid, dropped, after);
  }

  /** With exact counters and few enough trusted peers, a disconnect evicts exactly the excess, oldest first. */
  lemma EvictsExactlyTheExcess(first: Db, banned: seq<PeerId>, mid: Db, dropped: seq<PeerId>, after: Db)
    requires Exact(first) && |TrustedDisconnected(first.peers)| <= MAX_DC_PEERS
    requires BannedShrunk(first, banned, mid) && DisconnectedShrunk(mid, dropped, after)
    ensures EvictionSpec(first, banned, dropped, Reports(first, banned), after)
  {
    EvictedCounts(first, banned, mid, dropped, after);
    BannedLoop(first, banned, mid);
    DisconnectedLoop(mid, dropped, after);
    assert Elements(banned) <= BannedPeers(first.peers);
    assert Droppable(mid.peers) == Droppable(first.peers);
    OldestFirstIn(mid.peers, first.peers, Droppable(first.peers), dropped);
    ReportsLength(first, banned, mid);
    forall i | 0 <= i < |banned|
      ensures Reports(first, banned)[i] == (banned[i], OverByRecount(first.peers - Elements(banned[..i + 1]), Ips(first.peers[banned[i]]), false))
    {
      ReportsByRecount(first, banned, mid, i);
    }
  }

  lemma ReportsLength(db: Db, ps: seq<PeerId>, db': Db)
    requires Exact(db) && BannedShrunk(db, ps, db')
    ensures |Reports(db, ps)| == |ps|
  {
    if ps != [] { ReportsByRecount(db, ps, db', 0); }
  }

  lemma {:induction false} BannedLoopCount(db: Db, ps: seq<PeerId>, db': Db)
    requires Exact(db) && BannedShrunk(db, ps, db')
    ensures db'.banned == Min(db.banned, MAX_BANNED_PEERS)
    decreases |ps|
  {
    if ps != [] {
      ExactAfterBannedEviction(db, ps[0]);
      BannedLoopCount(EvictedBanned(db, ps[0]), ps[1..], db');
    }
  }

  // ----- The database object -----

  lemma SeenSplit(ips: seq<Ip>, k: nat)
    requires k < |ips|
    ensures ips[k..] == [ips[k]] + ips[k + 1..]
  {}

  lemma {:induction false} OldestExists(peers: Peers, among: set<PeerId>) returns (p: PeerId)
    requires among != {} && among <= peers.Keys
    ensures Oldest(peers, among, p)
    decreases among
  {
    p :| p in among;
    if among != {p} {
      var q: PeerId := OldestExists(peers, among - {p});
      p := if Since(peers[q]) < Since(peers[p]) then q else p;
    }
  }

  // Dropping `ps` in turn from `start` leads to `now`: whatever completes a loop from there completes it from `start`.

  ghost predicate BannedSoFar(start: Db, ps: seq<PeerId>, now: Db) {
    forall rest, db' :: BannedShrunk(now, rest, db') ==> BannedShrunk(start, ps + rest, db')
  }

  ghost predicate ReportedSoFar(start: Db, ps: seq<PeerId>, now: Db) {
    forall rest :: Reports(start, ps + rest) == Reports(start, ps) + Reports(now, rest)
  }

  ghost predicate DroppedSoFar(start: Db, ps: seq<PeerId>, now: Db) {
    forall rest, db' :: DisconnectedShrunk(now, rest, db') ==> DisconnectedShrunk(start, ps + rest, db')
  }

  lemma ReportsCons(now: Db, p: PeerId, rest: seq<PeerId>)
    requires p in now.peers
    ensures Reports(now, [p] + rest) ==
            [(p, Over(EvictedBanned(now, p).perIp, Ips(now.peers[p]), false))] + Reports(EvictedBanned(now, p), rest)
  {
    assert ([p] + rest)[1..] == rest;
  }

  lemma NoReports(db: Db)
    ensures Reports(db, []) == []
  {}

  lemma ReportedNext(start: Db, ps: seq<PeerId>, now: Db, p: PeerId)
    requires ReportedSoFar(start, ps, now) && p in now.peers
    ensures ReportedSoFar(start, ps + [p], EvictedBanned(now, p))
    ensures Reports(start, ps + [p]) ==
            Reports(start, ps) + [(p, Over(EvictedBanned(now, p).perIp, Ips(now.peers[p]), false))]
  {
    hide Reports, Over;
    ReportsCons(now, p, []);
    NoReports(EvictedBanned(now, p));
    assert [p] + [] == [p];
    assert Reports(start, ps + [p]) == Reports(start, ps) + Reports(now, [p]);
    forall rest
      ensures Reports(start, ps + [p] + rest) == Reports(start, ps + [p]) + Reports(EvictedBanned(now, p), rest)
    {
      ReportsCons(now, p, rest);
      assert ps + [p] + rest == ps + ([p] + rest);
      assert Reports(start, ps + ([p] + rest)) == Reports(start, ps) + Reports(now, [p] + rest);
    }
  }

  lemma BannedNext(start: Db, ps: seq<PeerId>, now: Db, p: PeerId)
    requires BannedSoFar(start, ps, now) && now.banned > MAX_BANNED_PEERS && Oldest(now.peers, BannedPeers(now.peers), p)
    ensures BannedSoFar(start, ps + [p], EvictedBanned(now, p))
  {
    forall rest, db' | BannedShrunk(EvictedBanned(now, p), rest, db')
      ensures BannedShrunk(start, ps + [p] + rest, db')
    {
      assert ps + [p] + rest == ps + ([p] + rest);
      assert ([p] + rest)[1..] == rest;
      assert BannedShrunk(now, [p] + rest, db');
    }
  }

  lemma DroppedNext(start: Db, ps: seq<PeerId>, now: Db, p: PeerId)
    requires DroppedSoFar(start, ps, now) && now.disconnected > MAX_DC_PEERS && Oldest(now.peers, Droppable(now.peers), p)
    ensures DroppedSoFar(start, ps + [p], EvictedDisconnected(now, p))
  {
    forall rest, db' | DisconnectedShrunk(EvictedDisconnected(now, p), rest, db')
      ensures DisconnectedShrunk(start, ps + [p] + rest, db')
    {
      assert ps + [p] + rest == ps + ([p] + rest);
      assert ([p] + rest)[1..] == rest;
      assert DisconnectedShrunk(now, [p] + rest, db');
    }
  }

  /** The loop ends within the limit, or with its counters reset when nobody is banned. */
  lemma BannedEnds(start: Db, ps: seq<PeerId>, now: Db)
    requires BannedSoFar(start, ps, now)
    ensures now.banned <= MAX_BANNED_PEERS ==> BannedShrunk(start, ps, now)
    ensures now.banned > MAX_BANNED_PEERS && BannedPeers(now.peers) == {} ==> BannedShrunk(start, ps, now.(banned := 0, perIp := map[]))
  {
    assert ps + [] == ps;
    assert now.banned <= MAX_BANNED_PEERS ==> BannedShrunk(now, [], now);
    assert now.banned > MAX_BANNED_PEERS && BannedPeers(now.peers) == {} ==> BannedShrunk(now, [], now.(banned := 0, perIp := map[]));
  }

  lemma NothingSoFar(start: Db)
    ensures BannedSoFar(start, [], start) && ReportedSoFar(start, [], start) && DroppedSoFar(start, [], start)
  {
    assert forall rest: seq<PeerId> :: [] + rest == rest;
    assert Reports(start, []) == [];
  }

  class PeerDB {
    var peers: Peers
    var disconnectedPeers: nat
    var bannedPeers: nat
    var bannedPeersPerIp: IpCounts
    const disablePeerScoring: bool

    function Snapshot(): Db
      reads this
    {
      Db(peers, disconnectedPeers, bannedPeers, bannedPeersPerIp)
    }

    constructor (trustedPeers: set<PeerId>, disablePeerScoring: bool)
      ensures Snapshot() == Fresh(trustedPeers) && this.disablePeerScoring == disablePeerScoring
    {
      peers := map p | p in trustedPeers :: TRUSTED_INFO;
      disconnectedPeers, bannedPeers, bannedPeersPerIp := 0, 0, map[];
      this.disablePeerScoring := disablePeerScoring;
    }

    method RemoveBannedPeer(ips: seq<Ip>)
      modifies this`bannedPeers, this`bannedPeersPerIp
      ensures bannedPeers == SatDec(old(bannedPeers))
      ensures bannedPeersPerIp == Released(old(bannedPeersPerIp), ips)
    {
      bannedPeers := if bannedPeers == 0 then 0 else bannedPeers - 1;
      for k := 0 to |ips|
        invariant Released(bannedPeersPerIp, ips[k..]) == Released(old(bannedPeersPerIp), ips)
        invariant bannedPeers == SatDec(old(bannedPeers))
      {
        SeenSplit(ips, k);
        if ips[k] in bannedPeersPerIp {
          var count := bannedPeersPerIp[ips[k]];
          bannedPeersPerIp := bannedPeersPerIp[ips[k] := if count == 0 then 0 else count - 1];
        }
      }
    }

    method AddBannedPeer(ips: seq<Ip>)
      modifies this`bannedPeers, this`bannedPeersPerIp
      ensures bannedPeers == old(bannedPeers) + 1
      ensures bannedPeersPerIp == Added(old(bannedPeersPerIp), ips)
    {
      bannedPeers := bannedPeers + 1;
      for k := 0 to |ips|
        invariant Added(bannedPeersPerIp, ips[k..]) == Added(old(bannedPeersPerIp), ips)
        invariant bannedPeers == old(bannedPeers) + 1
      {
        SeenSplit(ips, k);
        var count := if ips[k] in bannedPeersPerIp then bannedPeersPerIp[ips[k]] else 0;
        bannedPeersPerIp := bannedPeersPerIp[ips[k] := count + 1];
      }
    }

    method ToConnectedState(p: PeerId, info: PeerInfo, address: Multiaddr, direction: Direction, now: Instant)
      requires info == InfoOf(peers, p, disablePeerScoring)
      modifies this
      ensures Snapshot() == Updated(old(Snapshot()), p, ToConnected(address, direction), now, disablePeerScoring)
    {
      match info.status {
        case Disconnected(_) => disconnectedPeers := SatDec(disconnectedPeers);
        case Banned(_) => RemoveBannedPeer(Ips(info));
        case _ =>
      }
      var status := match info.status
        case Connected(i, o) => if direction.Incoming? then Connected(i + 1, o) else Connected(i, o + 1)
        case _ => if direction.Incoming? then Connected(1, 0) else Connected(0, 1);
      peers := peers[p := info.(status := status, seen := Inserted(info.seen, address))];
    }

    method ToDialingState(p: PeerId, info: PeerInfo, now: Instant)
      requires info == InfoOf(peers, p, disablePeerScoring)
      modifies this
      ensures Snapshot() == Updated(old(Snapshot()), p, ToDialing, now, disablePeerScoring)
    {
      var status := info.status;
      match info.status {
        case Banned(_) =>
          RemoveBannedPeer(Ips(info));
          status := Dialing(now);
        case Disconnected(_) =>
          disconnectedPeers := SatDec(disconnectedPeers);
          status := Dialing(now);
        case Unknown => status := Dialing(now);
        case _ =>
      }
      peers := peers[p := info.(status := status)];
    }

    method ToDisconnectedState(p: PeerId, info0: PeerInfo, now: Instant) returns (r: Option<BanOperation>)
      requires info0 == InfoOf(peers, p, disablePeerScoring)
      modifies this
      ensures Snapshot() == Updated(old(Snapshot()), p, ToDisconnected, now, disablePeerScoring)
      ensures r == BanOperationFor(old(Snapshot()), p, ToDisconnected, now, disablePeerScoring)
    {
      var info := info0.(subnets := {});
      r := None;
      match info.status {
        case Banned(_) => peers := peers[p := info];
        case Disconnected(_) => peers := peers[p := info];
        case Disconnecting(toBan) =>
          if toBan {
            peers := peers[p := info.(status := Banned(now))];
            AddBannedPeer(Ips(info));
            r := Some(ReadyToBan(Over(bannedPeersPerIp, Ips(info), true)));
          } else {
            disconnectedPeers := disconnectedPeers + 1;
            peers := peers[p := info.(status := Disconnected(now))];
            r := Some(TemporaryBan);
          }
        case _ =>
          disconnectedPeers := disconnectedPeers + 1;
          peers := peers[p := info.(status := Disconnected(now))];
      }
    }

    method ToDisconnectingState(p: PeerId, info: PeerInfo, toBan: bool, now: Instant)
      requires info == InfoOf(peers, p, disablePeerScoring)
      modifies this
      ensures Snapshot() == Updated(old(Snapshot()), p, ToDisconnecting(toBan), now, disablePeerScoring)
    {
      if info.status.Disconnected? {
        disconnectedPeers := SatDec(disconnectedPeers);
      }
      peers := peers[p := info.(status := Disconnecting(toBan))];
    }

    method ToBannedState(p: PeerId, info0: PeerInfo, now: Instant) returns (r: Option<BanOperation>)
      requires info0 == InfoOf(peers, p, disablePeerScoring)
      modifies this
      ensures Snapshot() == Updated(old(Snapshot()), p, ToBanned, now, disablePeerScoring)
      ensures r == BanOperationFor(old(Snapshot()), p, ToBanned, now, disablePeerScoring)
    {
      // A fatal action takes an untrusted peer's score to the minimum.
      var info := if info0.score == ScoreBanned || info0.isTrusted then info0 else info0.(score := ScoreBanned);
      match info.status {
        case Disconnected(_) =>
          peers := peers[p := info.(status := Banned(now))];
          AddBannedPeer(Ips(info));
          disconnectedPeers := SatDec(disconnectedPeers);
          r := Some(ReadyToBan(Over(bannedPeersPerIp, Ips(info), true)));
        case Disconnecting(_) =>
          peers := peers[p := info.(status := Disconnecting(true))];
          r := Some(PeerDisconnecting);
        case Banned(_) =>
          peers := peers[p := info];
          r := Some(ReadyToBan(Over(bannedPeersPerIp, Ips(info), true)));
        case Unknown =>
          AddBannedPeer(Ips(info));
          peers := peers[p := info.(status := Banned(now))];
          r := Some(ReadyToBan(Over(bannedPeersPerIp, Ips(info), true)));
        case _ =>
          peers := peers[p := info.(status := Disconnecting(true))];
          r := Some(DisconnectThePeer);
      }
    }

    method ToUnbannedState(p: PeerId, info: PeerInfo, now: Instant)
      requires info == InfoOf(peers, p, disablePeerScoring)
      modifies this
      ensures Snapshot() == Updated(old(Snapshot()), p, ToUnbanned, now, disablePeerScoring)
    {
      if info.status.Banned? {
        peers := peers[p := info.(status := Disconnected(info.status.since))];
        RemoveBannedPeer(Ips(info));
        disconnectedPeers := disconnectedPeers + 1;
      } else {
        peers := peers[p := info];
      }
    }

    method UpdateConnectionState(p: PeerId, to: NewConnectionState, now: Instant) returns (r: Option<BanOperation>)
      modifies this
      ensures Snapshot() == Updated(old(Snapshot()), p, to, now, disablePeerScoring)
      ensures r == BanOperationFor(old(Snapshot()), p, to, now, disablePeerScoring)
      ensures old(Exact(Snapshot())) ==> (Exact(Snapshot()) <==> old(Safe(Snapshot(), Request(p, to, now), disablePeerScoring)))
    {
      if Exact(Snapshot()) {
        ExactUnlessBannedDisconnects(Snapshot(), p, to, now, disablePeerScoring);
      }
      var info := InfoOf(peers, p, disablePeerScoring);
      r := None;
      match to {
        case ToConnected(address, direction) => ToConnectedState(p, info, address, direction, now);
        case ToDialing => ToDialingState(p, info, now);
        case ToDisconnected => r := ToDisconnectedState(p, info, now);
        case ToDisconnecting(toBan) => ToDisconnectingState(p, info, toBan, now);
        case ToBanned => r := ToBannedState(p, info, now);
        case ToUnbanned => ToUnbannedState(p, info, now);
      }
    }

    method ShrinkBanned() returns (unbanned: seq<(PeerId, seq<Ip>)>, ghost dropped: seq<PeerId>)
      modifies this
      ensures BannedShrunk(old(Snapshot()), dropped, Snapshot())
      ensures unbanned == Reports(old(Snapshot()), dropped)
      ensures bannedPeers <= MAX_BANNED_PEERS
    {
      hide BannedShrunk, Reports, BannedSoFar, ReportedSoFar, DroppedSoFar, Over;
      unbanned, dropped := [], [];
      ghost var start := Snapshot();
      NothingSoFar(start);
      NoReports(start);
      while bannedPeers > MAX_BANNED_PEERS
        invariant BannedSoFar(start, dropped, Snapshot())
        invariant ReportedSoFar(start, dropped, Snapshot()) && unbanned == Reports(start, dropped)
        decreases bannedPeers
      {
        if BannedPeers(peers) != {} {
          ghost var w := OldestExists(peers, BannedPeers(peers));
          var p :| Oldest(peers, BannedPeers(peers), p);
          BannedNext(start, dropped, Snapshot(), p);
          ReportedNext(start, dropped, Snapshot(), p);
          RemoveBannedPeer(Ips(peers[p]));
          var ips := Over(bannedPeersPerIp, Ips(peers[p]), false);
          peers := peers - {p};
          unbanned := unbanned + [(p, ips)];
          dropped := dropped + [p];
        } else {
          BannedEnds(start, dropped, Snapshot());
          bannedPeers, bannedPeersPerIp := 0, map[];
          return;
        }
      }
      BannedEnds(start, dropped, Snapshot());
    }

    method ShrinkDisconnected() returns (ghost dropped: seq<PeerId>)
      modifies this
      ensures DisconnectedShrunk(old(Snapshot()), dropped, Snapshot())
      ensures disconnectedPeers <= MAX_DC_PEERS && bannedPeers == old(bannedPeers)
    {
      dropped := [];
      ghost var start := Snapshot();
      NothingSoFar(start);
      while disconnectedPeers > MAX_DC_PEERS
        invariant DroppedSoFar(start, dropped, Snapshot()) && bannedPeers == old(bannedPeers)
        decreases disconnectedPeers
      {
        if Droppable(peers) != {} {
          ghost var w := OldestExists(peers, Droppable(peers));
          var p :| Oldest(peers, Droppable(peers), p);
          DroppedNext(start, dropped, Snapshot(), p);
          peers := peers - {p};
          dropped := dropped + [p];
        }
        disconnectedPeers := disconnectedPeers - 1;
      }
      assert DisconnectedShrunk(Snapshot(), [], Snapshot());
      assert dropped + [] == dropped;
    }

    /** The peer is gone; the database is shrunk to fit. Returns what was dropped with its unbanned IPs. */
    method InjectDisconnect(p: PeerId, now: Instant)
      returns (r: Option<BanOperation>, purged: seq<(PeerId, seq<Ip>)>, ghost banned: seq<PeerId>, ghost dropped: seq<PeerId>)
      modifies this
      ensures Step(old(Snapshot()), Disconnect(p, now), Snapshot(), disablePeerScoring)
      ensures r == BanOperationFor(old(Snapshot()), p, ToDisconnected, now, disablePeerScoring)
      ensures bannedPeers <= MAX_BANNED_PEERS && disconnectedPeers <= MAX_DC_PEERS
      ensures old(Exact(Snapshot())) ==> (Exact(Snapshot()) <==> old(Safe(Snapshot(), Disconnect(p, now), disablePeerScoring)))
      ensures old(Exact(Snapshot())) && Exact(Snapshot()) ==>
                EvictionSpec(Updated(old(Snapshot()), p, ToDisconnected, now, disablePeerScoring), banned, dropped, purged, Snapshot())
    {
      r := UpdateConnectionState(p, ToDisconnected, now);
      ghost var first := Snapshot();
      purged, banned := ShrinkBanned();
      ghost var mid := Snapshot();
      dropped := ShrinkDisconnected();
      assert Disconnects(old(Snapshot()), p, now, disablePeerScoring, banned, dropped, Snapshot());
      if old(Exact(Snapshot())) {
        DisconnectExact(old(Snapshot()), p, now, disablePeerScoring, banned, dropped, Snapshot());
        if Exact(Snapshot()) {
          EvictsExactlyTheExcess(first, banned, mid, dropped, Snapshot());
        }
      }
    }

    method UpdateAll(ps: seq<PeerId>, to: NewConnectionState, now: Instant)
      modifies this
      ensures Snapshot() == UpdatedAll(old(Snapshot()), ps, to, now, disablePeerScoring)
    {
      for k := 0 to |ps|
        invariant UpdatedAll(Snapshot(), ps[k..], to, now, disablePeerScoring) ==
                  UpdatedAll(old(Snapshot()), ps, to, now, disablePeerScoring)
      {
        assert ps[k..][1..] == ps[k + 1..];
        var _ := UpdateConnectionState(ps[k], to, now);
      }
    }

    method CleanupDialingPeers(now: Instant)
      modifies this
      ensures Step(old(Snapshot()), CleanupDialing(now), Snapshot(), disablePeerScoring)
    {
      var ps := ListOf(TimedOut(peers, now));
      UpdateAll(ps, ToDisconnected, now);
    }

    method ReportPeer(p: PeerId, score: ScoreState, now: Instant) returns (r: ScoreUpdate)
      modifies this
      ensures Step(old(Snapshot()), Report(p, score, now), Snapshot(), disablePeerScoring)
      ensures r == ReportOutcome(old(Snapshot()), p, score, now, disablePeerScoring)
    {
      r := NoUpdate;
      if p in peers {
        var previous := peers[p].score;
        peers := peers[p := Scored(peers[p], score)];
        match ScoreTransition(previous, peers[p]) {
          case ToBan =>
            var operation := UpdateConnectionState(p, ToBanned, now);
            if operation.Some? {
              r := Ban(operation.value);
            }
          case ToDisconnect =>
            var _ := UpdateConnectionState(p, ToDisconnecting(false), now);
            r := MustDisconnect;
          case _ =>
        }
      }
    }

    /** Unbans several peers in turn, reporting each with its addresses that are not banned any more. */
    method UnbanAll(ps: seq<PeerId>, now: Instant) returns (unbanned: seq<(PeerId, seq<Ip>)>)
      modifies this
      ensures Snapshot() == UpdatedAll(old(Snapshot()), ps, ToUnbanned, now, disablePeerScoring)
      ensures unbanned == UnbanReports(old(Snapshot()), ps, now, disablePeerScoring)
    {
      hide Updated, Over, Ips, InfoOf, Exact, BanOperationFor, Safe;
      unbanned := [];
      for k := 0 to |ps|
        invariant UpdatedAll(Snapshot(), ps[k..], ToUnbanned, now, disablePeerScoring) ==
                  UpdatedAll(old(Snapshot()), ps, ToUnbanned, now, disablePeerScoring)
        invariant unbanned + UnbanReports(Snapshot(), ps[k..], now, disablePeerScoring) ==
                  UnbanReports(old(Snapshot()), ps, now, disablePeerScoring)
      {
        assert ps[k..][0] == ps[k] && ps[k..][1..] == ps[k + 1..];
        var _ := UpdateConnectionState(ps[k], ToUnbanned, now);
        unbanned := unbanned + [(ps[k], Over(bannedPeersPerIp, Ips(InfoOf(peers, ps[k], disablePeerScoring)), false))];
      }
    }

    method UpdateScores(scores: map<PeerId, ScoreState>, now: Instant) returns (unbanned: seq<(PeerId, seq<Ip>)>, ghost ps: seq<PeerId>)
      modifies this
      ensures Step(old(Snapshot()), Op.UpdateScores(scores, now), Snapshot(), disablePeerScoring)
      ensures Distinct(ps) && Elements(ps) == Unbans(old(peers), scores)
      ensures unbanned == UnbanReports(old(Snapshot()).(peers := Decayed(old(peers), scores)), ps, now, disablePeerScoring)
    {
      var list := ListOf(Unbans(peers, scores));
      ps := list;
      peers := Decayed(peers, scores);
      unbanned := UnbanAll(list, now);
    }
  }
}
