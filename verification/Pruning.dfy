/**
  Pruning the excess peers: two passes over the peers from the worst score up,
  then a greedy selection from the densest custody subnet that protects scarce
  peers. Hash order, the shuffle and equal sort keys are nondeterministic choices.
*/
module Pruning {
  import opened Common

  const MIN_SYNC_COMMITTEE_PEERS: nat := 2
  const MIN_SAMPLING_COLUMN_SUBNET_PEERS: nat := 2

  /** A trusted peer has the greatest score. */
  datatype Score = Real(value: real) | MaxScore

  predicate Worse(a: Score, b: Score) {
    b.MaxScore? || (a.Real? && a.value <= b.value)
  }

  /** What pruning reads of a connected peer. */
  datatype PeerInfo = PeerInfo(
    score: Score,
    isTrusted: bool,
    hasFutureDuty: bool,
    hasLongLivedSubnet: bool,
    isOutboundOnly: bool,
    isSyncedOrAdvanced: bool,
    attestationSubnets: set<SubnetId>,
    syncCommittees: set<SubnetId>,
    custodySubnets: set<SubnetId>)

  type Peers = map<PeerId, PeerInfo>
  type Lookup = map<SubnetId, seq<PeerId>>

  datatype Config = Config(targetPeers: nat, targetOutboundPeers: nat, samplingSubnets: set<SubnetId>)

  // ----- Exact counts over the considered peers -----

  function OnCustody(info: Peers, s: SubnetId): set<PeerId> {
    set p | p in info && s in info[p].custodySubnets
  }

  function OnSync(info: Peers, s: SubnetId): set<PeerId> {
    set p | p in info && s in info[p].syncCommittees
  }

  function OnAttestation(info: Peers, s: SubnetId): set<PeerId> {
    set p | p in info && s in info[p].attestationSubnets
  }

  function Outbound(peers: Peers): set<PeerId> {
    set p | p in peers && peers[p].isOutboundOnly
  }

  /** The attestation subnets with at least one peer. */
  function Covered(info: Peers): set<SubnetId> {
    set p, s | p in info && s in info[p].attestationSubnets :: s
  }

  /** `s` has a peer, and no subnet with a peer has fewer. */
  predicate LeastDense(info: Peers, s: SubnetId) {
    s in Covered(info) &&
    forall s' :: s' in Covered(info) ==> |OnAttestation(info, s)| <= |OnAttestation(info, s')|
  }

  function Excess(peers: Peers, config: Config): nat {
    if |peers| <= config.targetPeers then 0 else |peers| - config.targetPeers
  }

  // ----- Protection -----

  function ListLength(lookup: Lookup, s: SubnetId): nat {
    if s in lookup then |lookup[s]| else 0
  }

  /** `outbound` is the count of connected outbound-only peers, `pruned` how many of them are given up. */
  predicate OutboundProtected(c: PeerInfo, config: Config, outbound: nat, pruned: nat) {
    c.isOutboundOnly && config.targetOutboundPeers >= (if outbound < pruned then 0 else outbound - pruned)
  }

  predicate SyncProtected(c: PeerInfo, info: Peers) {
    exists s :: s in c.syncCommittees && |OnSync(info, s)| <= MIN_SYNC_COMMITTEE_PEERS
  }

  predicate AttestationProtected(c: PeerInfo, info: Peers) {
    exists s :: s in c.attestationSubnets && LeastDense(info, s)
  }

  /** The code's test: sampling subnets are counted by the length of the reverse index. */
  predicate ShouldProtect(c: PeerInfo, config: Config, lookup: Lookup, info: Peers, outbound: nat, pruned: nat) {
    || OutboundProtected(c, config, outbound, pruned)
    || (exists s :: s in c.custodySubnets && s in config.samplingSubnets &&
                    ListLength(lookup, s) <= MIN_SAMPLING_COLUMN_SUBNET_PEERS)
    || SyncProtected(c, info)
    || AttestationProtected(c, info)
  }

  /** The same rules on exact counts of the considered peers. */
  predicate Protected(c: PeerInfo, config: Config, info: Peers, outbound: nat, pruned: nat) {
    || OutboundProtected(c, config, outbound, pruned)
    || SamplingProtected(c, config, info)
    || SyncProtected(c, info)
    || AttestationProtected(c, info)
  }

  predicate SamplingProtected(c: PeerInfo, config: Config, info: Peers) {
    exists s :: s in c.custodySubnets && s in config.samplingSubnets && |OnCustody(info, s)| <= MIN_SAMPLING_COLUMN_SUBNET_PEERS
  }

  // ----- What removing one unprotected peer does to the counts -----

  lemma CustodyWithout(info: Peers, c: PeerId, s: SubnetId)
    requires c in info
    ensures OnCustody(info - {c}, s) == OnCustody(info, s) - {c}
    ensures |OnCustody(info - {c}, s)| == |OnCustody(info, s)| - (if s in info[c].custodySubnets then 1 else 0)
  {
    assert OnCustody(info - {c}, s) == OnCustody(info, s) - {c};
    if s !in info[c].custodySubnets {
      assert OnCustody(info, s) - {c} == OnCustody(info, s);
    }
  }

  lemma SyncWithout(info: Peers, c: PeerId, s: SubnetId)
    requires c in info
    ensures OnSync(info - {c}, s) == OnSync(info, s) - {c}
    ensures |OnSync(info - {c}, s)| == |OnSync(info, s)| - (if s in info[c].syncCommittees then 1 else 0)
  {
    assert OnSync(info - {c}, s) == OnSync(info, s) - {c};
    if s !in info[c].syncCommittees {
      assert OnSync(info, s) - {c} == OnSync(info, s);
    }
  }

  lemma AttestationWithout(info: Peers, c: PeerId, s: SubnetId)
    requires c in info
    ensures OnAttestation(info - {c}, s) == OnAttestation(info, s) - {c}
    ensures |OnAttestation(info - {c}, s)| == |OnAttestation(info, s)| - (if s in info[c].attestationSubnets then 1 else 0)
  {
    assert OnAttestation(info - {c}, s) == OnAttestation(info, s) - {c};
    if s !in info[c].attestationSubnets {
      assert OnAttestation(info, s) - {c} == OnAttestation(info, s);
    }
  }

  lemma CoveredHasPeers(info: Peers, s: SubnetId)
    ensures s in Covered(info) <==> |OnAttestation(info, s)| > 0
  {
    if s in Covered(info) {
      var p :| p in info && s in info[p].attestationSubnets;
      assert p in OnAttestation(info, s);
    }
  }

  /** Some subnet among those with a peer has the fewest peers. */
  lemma {:induction false} LeastDenseExists(info: Peers, s: SubnetId) returns (least: SubnetId)
    requires s in Covered(info)
    ensures LeastDense(info, least)
    decreases |OnAttestation(info, s)|
  {
    if LeastDense(info, s) {
      least := s;
    } else {
      var s' :| s' in Covered(info) && |OnAttestation(info, s')| < |OnAttestation(info, s)|;
      least := LeastDenseExists(info, s');
    }
  }

  /** A subnet of an unprotected peer has strictly more peers than the least dense one, so at least two. */
  lemma NotLeastDense(info: Peers, c: PeerId, s: SubnetId, least: SubnetId)
    requires c in info && !AttestationProtected(info[c], info)
    requires s in info[c].attestationSubnets && LeastDense(info, least)
    ensures |OnAttestation(info, s)| > |OnAttestation(info, least)| >= 1
  {
    assert s in Covered(info);
    assert !LeastDense(info, s);
    CoveredHasPeers(info, least);
  }

  /** Removing an attestation-unprotected peer keeps which subnets have a peer. */
  lemma CoverageKept(info: Peers, c: PeerId)
    requires c in info && !AttestationProtected(info[c], info)
    ensures Covered(info - {c}) == Covered(info)
  {
    forall s
      ensures s in Covered(info - {c}) <==> s in Covered(info)
    {
      AttestationWithout(info, c, s);
      CoveredHasPeers(info, s);
      CoveredHasPeers(info - {c}, s);
      if s in info[c].attestationSubnets {
        assert s in Covered(info);
        var least := LeastDenseExists(info, s);
        NotLeastDense(info, c, s, least);
      }
    }
  }

  /** It also keeps the least dense subnets least dense, with the same count. */
  lemma LeastDenseKept(info: Peers, c: PeerId, s: SubnetId)
    requires c in info && !AttestationProtected(info[c], info) && LeastDense(info, s)
    ensures LeastDense(info - {c}, s) && |OnAttestation(info - {c}, s)| == |OnAttestation(info, s)|
  {
    AttestationWithout(info, c, s);
    CoverageKept(info, c);
    if s in info[c].attestationSubnets { NotLeastDense(info, c, s, s); }
    forall s' | s' in Covered(info - {c})
      ensures |OnAttestation(info - {c}, s)| <= |OnAttestation(info - {c}, s')|
    {
      AttestationWithout(info, c, s');
      if s' in info[c].attestationSubnets { NotLeastDense(info, c, s', s); }
    }
  }

  /** Protection, once gained, is never lost as unprotected peers are removed. */
  lemma ProtectionIsMonotone(info: Peers, c: PeerId, p: PeerInfo, config: Config, outbound: nat, pruned: nat, pruned': nat)
    requires c in info && !AttestationProtected(info[c], info) && pruned <= pruned'
    requires Protected(p, config, info, outbound, pruned)
    ensures Protected(p, config, info - {c}, outbound, pruned')
  {
    if OutboundProtected(p, config, outbound, pruned) {
    } else if SyncProtected(p, info) {
      var s :| s in p.syncCommittees && |OnSync(info, s)| <= MIN_SYNC_COMMITTEE_PEERS;
      SyncWithout(info, c, s);
    } else if AttestationProtected(p, info) {
      var s :| s in p.attestationSubnets && LeastDense(info, s);
      LeastDenseKept(info, c, s);
    } else {
      var s :| s in p.custodySubnets && s in config.samplingSubnets && |OnCustody(info, s)| <= MIN_SAMPLING_COLUMN_SUBNET_PEERS;
      CustodyWithout(info, c, s);
    }
  }

  // ----- The reverse index -----

  lemma {:induction false} DistinctLength(l: seq<PeerId>)
    requires Distinct(l)
    ensures |Elements(l)| == |l|
  {
    if l != [] {
      var init, last := l[..|l| - 1], l[|l| - 1];
      DistinctLength(init);
      assert Elements(l) == Elements(init) + {last};
      assert last !in Elements(init);
    }
  }

  /** `retain` of every peer but `c`. */
  function Without(l: seq<PeerId>, c: PeerId): (r: seq<PeerId>)
    ensures Elements(r) == Elements(l) - {c}
    ensures Distinct(l) ==> Distinct(r)
    ensures c !in l ==> r == l
  {
    if l == [] then []
    else
      var r := Without(l[1..], c);
      assert Elements(l) == {l[0]} + Elements(l[1..]);
      assert Distinct(l) ==> l[0] !in Elements(l[1..]);
      if l[0] == c then r
      else
        assert Elements([l[0]] + r) == {l[0]} + Elements(r);
        assert l[0] in Elements([l[0]]);
        [l[0]] + r
  }

  /** Every list is either the exact list of its subnet, or was cleared when all its peers were protected. */
  ghost predicate Indexed(lookup: Lookup, info: Peers, config: Config, outbound: nat, pruned: nat) {
    && (forall p, s :: p in info && s in info[p].custodySubnets ==> s in lookup)
    && (forall s :: s in lookup ==> Distinct(lookup[s]))
    && (forall s :: s in lookup && Elements(lookup[s]) != OnCustody(info, s) ==>
          lookup[s] == [] && forall p :: p in OnCustody(info, s) ==> Protected(info[p], config, info, outbound, pruned))
  }

  lemma ListIsExact(lookup: Lookup, info: Peers, config: Config, outbound: nat, pruned: nat, s: SubnetId)
    requires Indexed(lookup, info, config, outbound, pruned) && s in lookup
    ensures |lookup[s]| <= |OnCustody(info, s)|
    ensures lookup[s] != [] ==> |lookup[s]| == |OnCustody(info, s)| && Elements(lookup[s]) == OnCustody(info, s)
  {
    DistinctLength(lookup[s]);
  }

  /** The code's test protects exactly the peers that the exact counts protect, although lists may have been cleared. */
  lemma CodeProtectionIsExact(lookup: Lookup, info: Peers, config: Config, outbound: nat, pruned: nat, p: PeerId)
    requires Indexed(lookup, info, config, outbound, pruned) && p in info
    ensures ShouldProtect(info[p], config, lookup, info, outbound, pruned) <==> Protected(info[p], config, info, outbound, pruned)
  {
    if s :| s in info[p].custodySubnets && s in config.samplingSubnets && |OnCustody(info, s)| <= MIN_SAMPLING_COLUMN_SUBNET_PEERS {
      ListIsExact(lookup, info, config, outbound, pruned, s);
    }
    if s :| s in info[p].custodySubnets && s in config.samplingSubnets && ListLength(lookup, s) <= MIN_SAMPLING_COLUMN_SUBNET_PEERS {
      ListIsExact(lookup, info, config, outbound, pruned, s);
      assert p in OnCustody(info, s);
      if Elements(lookup[s]) == OnCustody(info, s) {
        DistinctLength(lookup[s]);
      }
    }
  }

  function Retained(lookup: Lookup, c: PeerId): Lookup {
    map s | s in lookup :: Without(lookup[s], c)
  }

  /** Pruning an unprotected candidate keeps the index right. */
  lemma IndexedAfterPrune(lookup: Lookup, info: Peers, config: Config, outbound: nat, pruned: nat, pruned': nat, c: PeerId)
    requires Indexed(lookup, info, config, outbound, pruned) && c in info && pruned <= pruned'
    requires !AttestationProtected(info[c], info)
    ensures Indexed(Retained(lookup, c), info - {c}, config, outbound, pruned')
  {
    var lookup', info' := Retained(lookup, c), info - {c};
    forall s | s in lookup' && Elements(lookup'[s]) != OnCustody(info', s)
      ensures lookup'[s] == [] && forall p :: p in OnCustody(info', s) ==> Protected(info'[p], config, info', outbound, pruned')
    {
      CustodyWithout(info, c, s);
      forall p | p in OnCustody(info', s)
        ensures Protected(info'[p], config, info', outbound, pruned')
      {
        assert p in OnCustody(info, s);
        ProtectionIsMonotone(info, c, info[p], config, outbound, pruned, pruned');
      }
    }
  }

  /** Clearing a list whose peers are all protected keeps the index right. */
  lemma IndexedAfterClear(lookup: Lookup, info: Peers, config: Config, outbound: nat, pruned: nat, s: SubnetId)
    requires Indexed(lookup, info, config, outbound, pruned) && s in lookup
    requires forall p :: p in lookup[s] && p in info ==> ShouldProtect(info[p], config, lookup, info, outbound, pruned)
    ensures Indexed(lookup[s := []], info, config, outbound, pruned)
  {
    if Elements(lookup[s]) == OnCustody(info, s) {
      forall p | p in OnCustody(info, s)
        ensures Protected(info[p], config, info, outbound, pruned)
      {
        assert p in Elements(lookup[s]);
        CodeProtectionIsExact(lookup, info, config, outbound, pruned, p);
      }
    }
  }

  // ----- What stage three keeps -----

  /** Coverage, the least attestation count, and the floors of sync committees and sampling subnets. */
  ghost predicate Kept(config: Config, before: Peers, after: Peers) {
    && Covered(after) == Covered(before)
    && (forall s :: LeastDense(before, s) ==> LeastDense(after, s) && |OnAttestation(after, s)| == |OnAttestation(before, s)|)
    && (forall s :: |OnSync(after, s)| >= Min(|OnSync(before, s)|, MIN_SYNC_COMMITTEE_PEERS))
    && (forall s :: s in config.samplingSubnets ==>
          |OnCustody(after, s)| >= Min(|OnCustody(before, s)|, MIN_SAMPLING_COLUMN_SUBNET_PEERS))
  }

  lemma KeptAfterPrune(config: Config, before: Peers, info: Peers, c: PeerId, outbound: nat, pruned: nat)
    requires Kept(config, before, info) && c in info && !Protected(info[c], config, info, outbound, pruned)
    ensures Kept(config, before, info - {c})
  {
    var info' := info - {c};
    CoverageKept(info, c);
    forall s | LeastDense(before, s)
      ensures LeastDense(info', s) && |OnAttestation(info', s)| == |OnAttestation(before, s)|
    {
      LeastDenseKept(info, c, s);
    }
    forall s
      ensures |OnSync(info', s)| >= Min(|OnSync(before, s)|, MIN_SYNC_COMMITTEE_PEERS)
    {
      SyncWithout(info, c, s);
    }
    forall s | s in config.samplingSubnets
      ensures |OnCustody(info', s)| >= Min(|OnCustody(before, s)|, MIN_SAMPLING_COLUMN_SUBNET_PEERS)
    {
      CustodyWithout(info, c, s);
    }
  }

  // ----- Sorting: equal keys, hash order and the shuffle leave the result open -----

  ghost predicate TotalPreorder(le: (PeerId, PeerId) -> bool) {
    && (forall a, b :: le(a, b) || le(b, a))
    && (forall a, b, c :: le(a, b) && le(b, c) ==> le(a, c))
  }

  lemma {:induction false} LeastExists(l: seq<PeerId>, le: (PeerId, PeerId) -> bool) returns (i: nat)
    requires TotalPreorder(le) && l != []
    ensures i < |l| && forall j :: 0 <= j < |l| ==> le(l[i], l[j])
  {
    if |l| == 1 {
      i := 0;
    } else {
      var k := LeastExists(l[1..], le);
      assert forall j :: 1 <= j < |l| ==> l[j] == l[1..][j - 1];
      i := if le(l[0], l[k + 1]) then 0 else k + 1;
    }
  }

  /** `r` and `rest` hold what `l` holds. */
  ghost predicate Arranged(l: seq<PeerId>, r: seq<PeerId>, rest: seq<PeerId>) {
    && Elements(r) + Elements(rest) == Elements(l)
    && (Distinct(l) ==> Distinct(r) && Distinct(rest) && Elements(r) !! Elements(rest))
  }

  lemma ArrangedNext(l: seq<PeerId>, r: seq<PeerId>, rest: seq<PeerId>, i: nat)
    requires Arranged(l, r, rest) && i < |rest|
    ensures Arranged(l, r + [rest[i]], rest[..i] + rest[i + 1..])
  {
    assert Elements(rest) == Elements(rest[..i] + rest[i + 1..]) + {rest[i]};
    assert Elements(r + [rest[i]]) == Elements(r) + {rest[i]};
  }

  ghost predicate InOrder(le: (PeerId, PeerId) -> bool, r: seq<PeerId>, rest: seq<PeerId>) {
    && (forall i, j :: 0 <= i <= j < |r| ==> le(r[i], r[j]))
    && (forall i, j :: 0 <= i < |r| && 0 <= j < |rest| ==> le(r[i], rest[j]))
  }

  lemma InOrderNext(le: (PeerId, PeerId) -> bool, r: seq<PeerId>, rest: seq<PeerId>, i: nat)
    requires InOrder(le, r, rest) && i < |rest| && forall j :: 0 <= j < |rest| ==> le(rest[i], rest[j])
    ensures InOrder(le, r + [rest[i]], rest[..i] + rest[i + 1..])
  {}

  /** Any sorted arrangement of `l`. */
  method Sorted(l: seq<PeerId>, le: (PeerId, PeerId) -> bool) returns (r: seq<PeerId>)
    requires TotalPreorder(le)
    ensures Elements(r) == Elements(l)
    ensures Distinct(l) ==> Distinct(r)
    ensures forall i, j :: 0 <= i <= j < |r| ==> le(r[i], r[j])
  {
    r := [];
    var rest := l;
    while rest != []
      invariant Arranged(l, r, rest) && InOrder(le, r, rest)
      decreases |rest|
    {
      ghost var least := LeastExists(rest, le);
      var i: nat :| i < |rest| && forall j :: 0 <= j < |rest| ==> le(rest[i], rest[j]);
      ArrangedNext(l, r, rest, i);
      InOrderNext(le, r, rest, i);
      r := r + [rest[i]];
      rest := rest[..i] + rest[i + 1..];
    }
  }

  function ScoreOf(peers: Peers, p: PeerId): Score {
    if p in peers then peers[p].score else MaxScore
  }

  method WorstConnectedPeers(peers: Peers) returns (order: seq<PeerId>)
    ensures Ordered(peers, order)
  {
    var keys := ListOf(peers.Keys);
    order := Sorted(keys, (a: PeerId, b: PeerId) => Worse(ScoreOf(peers, a), ScoreOf(peers, b)));
  }

  // ----- Stages one and two -----

  datatype Stage = NegativeScore | NoLongLivedSubnet

  predicate Eligible(stage: Stage, i: PeerInfo) {
    !i.hasFutureDuty && !i.isTrusted &&
    match stage
    case NegativeScore => i.score.Real? && i.score.value < 0.0
    case NoLongLivedSubnet => !i.hasLongLivedSubnet
  }

  /** What holds of the selection at every point of the whole prune. */
  ghost predicate Selection(peers: Peers, config: Config, toPrune: set<PeerId>, outboundPruned: nat) {
    && toPrune <= peers.Keys
    && (forall p :: p in toPrune ==> !peers[p].isTrusted)
    && |toPrune| <= Excess(peers, config)
    && outboundPruned == |toPrune * Outbound(peers)|
    && |Outbound(peers)| - outboundPruned >= Min(|Outbound(peers)|, config.targetOutboundPeers)
  }

  lemma Select(peers: Peers, config: Config, toPrune: set<PeerId>, outboundPruned: nat, p: PeerId)
    requires Selection(peers, config, toPrune, outboundPruned) && |toPrune| < Excess(peers, config)
    requires p in peers && p !in toPrune && !peers[p].isTrusted
    requires peers[p].isOutboundOnly ==> config.targetOutboundPeers + outboundPruned < |Outbound(peers)|
    ensures Selection(peers, config, toPrune + {p}, if peers[p].isOutboundOnly then outboundPruned + 1 else outboundPruned)
  {
    var now := (toPrune + {p}) * Outbound(peers);
    if peers[p].isOutboundOnly {
      assert now == toPrune * Outbound(peers) + {p};
    } else {
      assert now == toPrune * Outbound(peers);
    }
  }

  predicate StrictlyWorse(a: Score, b: Score) {
    Worse(a, b) && !Worse(b, a)
  }

  /** The outbound quota alone kept the peer. */
  predicate PassedOver(peers: Peers, config: Config, q: PeerId, after: set<PeerId>)
    requires q in peers
  {
    peers[q].isOutboundOnly && config.targetOutboundPeers + |after * Outbound(peers)| >= |Outbound(peers)|
  }

  /**
    What a pass selects: only eligible peers, worst first, and all of them short of the excess. Only the outbound quota
    makes exceptions: it keeps an outbound peer, and then no outbound peer with a better score goes.
  */
  ghost predicate PassSpec(peers: Peers, config: Config, stage: Stage, before: set<PeerId>, after: set<PeerId>) {
    && before <= after <= peers.Keys
    && (forall p :: p in after - before ==> Eligible(stage, peers[p]))
    && (forall p, q :: p in after - before && LeftOut(peers, stage, after, q) && StrictlyWorse(peers[q].score, peers[p].score) ==>
          PassedOver(peers, config, q, after) && !peers[p].isOutboundOnly)
    && (|after| < Excess(peers, config) ==> forall q :: LeftOut(peers, stage, after, q) ==> PassedOver(peers, config, q, after))
  }

  /** An eligible peer that is not selected. */
  ghost predicate LeftOut(peers: Peers, stage: Stage, toPrune: set<PeerId>, q: PeerId) {
    q in peers && q !in toPrune && Eligible(stage, peers[q])
  }

  ghost predicate WorstFirst(peers: Peers, order: seq<PeerId>) {
    forall i, j :: 0 <= i <= j < |order| ==> Worse(ScoreOf(peers, order[i]), ScoreOf(peers, order[j]))
  }

  /** Every connected peer once, from the worst score up: one of the orders in which a pass may meet them. */
  ghost predicate Ordered(peers: Peers, order: seq<PeerId>) {
    Distinct(order) && Elements(order) == peers.Keys && WorstFirst(peers, order)
  }

  /** The quota lets one more such peer go. */
  predicate WithinQuota(peers: Peers, config: Config, toPrune: set<PeerId>, p: PeerId)
    requires p in peers
  {
    peers[p].isOutboundOnly ==> config.targetOutboundPeers + |toPrune * Outbound(peers)| < |Outbound(peers)|
  }

  /** The selection after a pass over `order`. */
  function Passed(peers: Peers, config: Config, stage: Stage, order: seq<PeerId>, toPrune: set<PeerId>): set<PeerId> {
    if order == [] then toPrune
    else if order[0] !in peers || !Eligible(stage, peers[order[0]]) then Passed(peers, config, stage, order[1..], toPrune)
    else if |toPrune| >= Excess(peers, config) then toPrune
    else if order[0] !in toPrune && WithinQuota(peers, config, toPrune, order[0]) then Passed(peers, config, stage, order[1..], toPrune + {order[0]})
    else Passed(peers, config, stage, order[1..], toPrune)
  }

  /** A pass over the peers from the worst score up. */
  method PrunePass(peers: Peers, config: Config, stage: Stage, order: seq<PeerId>, toPrune0: set<PeerId>, outboundPruned0: nat)
    returns (toPrune: set<PeerId>, outboundPruned: nat)
    requires Ordered(peers, order) && Selection(peers, config, toPrune0, outboundPruned0)
    ensures toPrune == Passed(peers, config, stage, order, toPrune0)
    ensures Selection(peers, config, toPrune, outboundPruned)
    ensures PassSpec(peers, config, stage, toPrune0, toPrune)
  {
    hide Eligible, Ordered, PassSpec, Selection, Passed, Outbound, Excess;
    SelectionCount(peers, config, toPrune0, outboundPruned0);
    PassMakesSpec(peers, config, stage, order, toPrune0);
    toPrune, outboundPruned := toPrune0, outboundPruned0;
    var k := 0;
    assert order[0..] == order;
    while k < |order|
      invariant k <= |order| && Selection(peers, config, toPrune, outboundPruned)
      invariant Passed(peers, config, stage, order[k..], toPrune) == Passed(peers, config, stage, order, toPrune0)
    {
      var p := order[k];
      PassedOne(peers, config, stage, order, k, toPrune, outboundPruned);
      if p in peers && Eligible(stage, peers[p]) {
        if |toPrune| >= Excess(peers, config) {
          return;
        }
        if p !in toPrune && (!peers[p].isOutboundOnly || config.targetOutboundPeers + outboundPruned < |Outbound(peers)|) {
          if peers[p].isOutboundOnly { outboundPruned := outboundPruned + 1; }
          toPrune := toPrune + {p};
        }
      }
      k := k + 1;
    }
    NobodyLeft(peers, config, stage, order, toPrune);
  }

  lemma SelectionCount(peers: Peers, config: Config, toPrune: set<PeerId>, outboundPruned: nat)
    requires Selection(peers, config, toPrune, outboundPruned)
    ensures outboundPruned == |toPrune * Outbound(peers)|
  {}

  lemma NobodyLeft(peers: Peers, config: Config, stage: Stage, order: seq<PeerId>, toPrune: set<PeerId>)
    ensures Passed(peers, config, stage, order[|order|..], toPrune) == toPrune
  {}

  /** One step of the walk. */
  lemma PassedOne(peers: Peers, config: Config, stage: Stage, order: seq<PeerId>, k: nat, toPrune: set<PeerId>, outboundPruned: nat)
    requires Selection(peers, config, toPrune, outboundPruned) && k < |order|
    ensures var p := order[k];
            var now, next := Passed(peers, config, stage, order[k..], toPrune), order[k + 1..];
            if p !in peers || !Eligible(stage, peers[p]) then now == Passed(peers, config, stage, next, toPrune)
            else if |toPrune| >= Excess(peers, config) then now == toPrune
            else if p !in toPrune && (!peers[p].isOutboundOnly || config.targetOutboundPeers + outboundPruned < |Outbound(peers)|) then
              now == Passed(peers, config, stage, next, toPrune + {p}) && Selection(peers, config, toPrune + {p}, PrunedAfter(peers[p], outboundPruned))
            else now == Passed(peers, config, stage, next, toPrune)
  {
    hide Eligible, Selection, Outbound, Excess;
    assert order[k..][1..] == order[k + 1..];
    SelectionCount(peers, config, toPrune, outboundPruned);
    var p := order[k];
    if p in peers && Eligible(stage, peers[p]) && |toPrune| < Excess(peers, config) && p !in toPrune && WithinQuota(peers, config, toPrune, p) {
      SelectEligible(peers, config, stage, toPrune, outboundPruned, p);
    }
  }

  lemma SelectEligible(peers: Peers, config: Config, stage: Stage, toPrune: set<PeerId>, outboundPruned: nat, p: PeerId)
    requires Selection(peers, config, toPrune, outboundPruned) && |toPrune| < Excess(peers, config)
    requires p in peers && p !in toPrune && Eligible(stage, peers[p])
    requires peers[p].isOutboundOnly ==> config.targetOutboundPeers + outboundPruned < |Outbound(peers)|
    ensures Selection(peers, config, toPrune + {p}, if peers[p].isOutboundOnly then outboundPruned + 1 else outboundPruned)
  {
    Select(peers, config, toPrune, outboundPruned, p);
  }

  // ----- What a pass selects -----

  /** The quota is used up: it stays so, whoever goes next. */
  ghost predicate UsedUp(peers: Peers, config: Config, toPrune: set<PeerId>) {
    config.targetOutboundPeers + |toPrune * Outbound(peers)| >= |Outbound(peers)|
  }

  /**
    After the first `k` peers: who was selected, that only the quota passed over an eligible one, and that no outbound
    peer was selected after that.
  */
  ghost predicate Processed(peers: Peers, config: Config, stage: Stage, order: seq<PeerId>, k: nat, before: set<PeerId>, toPrune: set<PeerId>) {
    && before <= toPrune && k <= |order|
    && (forall p :: p in toPrune - before ==> p in order[..k] && p in peers && Eligible(stage, peers[p]))
    && (forall i :: 0 <= i < k && LeftOut(peers, stage, toPrune, order[i]) ==> peers[order[i]].isOutboundOnly && UsedUp(peers, config, toPrune))
    && (forall i, j :: 0 <= i < j < k && LeftOut(peers, stage, toPrune, order[i]) && order[j] in toPrune - before && order[j] in peers ==>
          !peers[order[j]].isOutboundOnly)
  }

  lemma UsedUpStays(peers: Peers, config: Config, toPrune: set<PeerId>, p: PeerId)
    requires UsedUp(peers, config, toPrune)
    ensures UsedUp(peers, config, toPrune + {p})
  {
    var now := (toPrune + {p}) * Outbound(peers);
    assert now == toPrune * Outbound(peers) + (now - toPrune * Outbound(peers));
  }

  /** One more peer is passed over. */
  lemma ProcessedSkip(peers: Peers, config: Config, stage: Stage, order: seq<PeerId>, k: nat, before: set<PeerId>, toPrune: set<PeerId>)
    requires Processed(peers, config, stage, order, k, before, toPrune) && Distinct(order) && k < |order|
    requires LeftOut(peers, stage, toPrune, order[k]) ==> peers[order[k]].isOutboundOnly && UsedUp(peers, config, toPrune)
    ensures Processed(peers, config, stage, order, k + 1, before, toPrune)
  {
    hide Eligible, UsedUp;
    assert order[..k + 1] == order[..k] + [order[k]];
  }

  /** One more peer is selected. */
  lemma ProcessedTake(peers: Peers, config: Config, stage: Stage, order: seq<PeerId>, k: nat, before: set<PeerId>, toPrune: set<PeerId>)
    requires Processed(peers, config, stage, order, k, before, toPrune) && Distinct(order) && k < |order|
    requires LeftOut(peers, stage, toPrune, order[k]) && WithinQuota(peers, config, toPrune, order[k])
    ensures Processed(peers, config, stage, order, k + 1, before, toPrune + {order[k]})
  {
    hide Eligible;
    assert order[..k + 1] == order[..k] + [order[k]];
    if UsedUp(peers, config, toPrune) {
      UsedUpStays(peers, config, toPrune, order[k]);
    }
  }

  /** The rest of a pass, and what it makes of what was processed. */
  lemma {:induction false} PassFrom(peers: Peers, config: Config, stage: Stage, order: seq<PeerId>, k: nat, before: set<PeerId>, toPrune: set<PeerId>)
    requires Processed(peers, config, stage, order, k, before, toPrune) && k <= |order|
    requires Ordered(peers, order) && Selection(peers, config, toPrune, |toPrune * Outbound(peers)|)
    ensures var after := Passed(peers, config, stage, order[k..], toPrune);
            Selection(peers, config, after, |after * Outbound(peers)|) && PassSpec(peers, config, stage, before, after)
    decreases |order| - k
  {
    hide Eligible, Processed, Ordered, PassSpec, Selection;
    if k == |order| {
      ProcessedMeans(peers, config, stage, order, k, before, toPrune);
    } else {
      OrderedMember(peers, order, k);
      assert order[k..][1..] == order[k + 1..];
      var p := order[k];
      if !Eligible(stage, peers[p]) {
        ProcessedSkip(peers, config, stage, order, k, before, toPrune);
        PassFrom(peers, config, stage, order, k + 1, before, toPrune);
      } else if |toPrune| >= Excess(peers, config) {
        ProcessedMeans(peers, config, stage, order, k, before, toPrune);
      } else if p !in toPrune && WithinQuota(peers, config, toPrune, p) {
        ProcessedTake(peers, config, stage, order, k, before, toPrune);
        SelectWithinQuota(peers, config, stage, toPrune, p);
        PassFrom(peers, config, stage, order, k + 1, before, toPrune + {p});
      } else {
        ProcessedSkip(peers, config, stage, order, k, before, toPrune);
        PassFrom(peers, config, stage, order, k + 1, before, toPrune);
      }
    }
  }

  lemma OrderedMember(peers: Peers, order: seq<PeerId>, k: nat)
    requires Ordered(peers, order) && k < |order|
    ensures order[k] in peers && Distinct(order)
  {
    assert order[k] in Elements(order);
  }

  lemma SelectWithinQuota(peers: Peers, config: Config, stage: Stage, toPrune: set<PeerId>, p: PeerId)
    requires Selection(peers, config, toPrune, |toPrune * Outbound(peers)|) && |toPrune| < Excess(peers, config)
    requires LeftOut(peers, stage, toPrune, p) && WithinQuota(peers, config, toPrune, p)
    ensures Selection(peers, config, toPrune + {p}, |(toPrune + {p}) * Outbound(peers)|)
  {
    Select(peers, config, toPrune, |toPrune * Outbound(peers)|, p);
  }

  lemma ProcessedMeans(peers: Peers, config: Config, stage: Stage, order: seq<PeerId>, k: nat, before: set<PeerId>, after: set<PeerId>)
    requires Processed(peers, config, stage, order, k, before, after) && Ordered(peers, order)
    requires Selection(peers, config, after, |after * Outbound(peers)|) && (k == |order| || |after| >= Excess(peers, config))
    ensures PassSpec(peers, config, stage, before, after)
  {
    hide Eligible, Outbound, StrictlyWorse, Ordered, PassedOver, Excess;
    forall p, q | p in after - before && LeftOut(peers, stage, after, q) && p in peers && q in peers && StrictlyWorse(peers[q].score, peers[p].score)
      ensures PassedOver(peers, config, q, after) && !peers[p].isOutboundOnly
    {
      WorseIsPassedOver(peers, config, stage, order, k, before, after, p, q);
    }
    forall q | k == |order| && LeftOut(peers, stage, after, q)
      ensures q in peers && PassedOver(peers, config, q, after)
    {
      LeftIsPassedOver(peers, config, stage, order, before, after, q);
    }
  }

  lemma WorseIsPassedOver(peers: Peers, config: Config, stage: Stage, order: seq<PeerId>, k: nat, before: set<PeerId>, after: set<PeerId>, p: PeerId, q: PeerId)
    requires Processed(peers, config, stage, order, k, before, after) && Ordered(peers, order)
    requires p in after - before && LeftOut(peers, stage, after, q) && p in peers && StrictlyWorse(peers[q].score, peers[p].score)
    ensures PassedOver(peers, config, q, after) && !peers[p].isOutboundOnly
  {
    hide Eligible, Outbound, Worse, Distinct;
    assert q in Elements(order);
    var i :| 0 <= i < |order| && order[i] == q;
    var j :| 0 <= j < k && order[j] == p;
    assert i < j;
  }

  lemma LeftIsPassedOver(peers: Peers, config: Config, stage: Stage, order: seq<PeerId>, before: set<PeerId>, after: set<PeerId>, q: PeerId)
    requires Processed(peers, config, stage, order, |order|, before, after) && Ordered(peers, order) && LeftOut(peers, stage, after, q)
    ensures q in peers && PassedOver(peers, config, q, after)
  {
    hide Eligible, Outbound, WorstFirst, Distinct;
    assert q in Elements(order);
    var i :| 0 <= i < |order| && order[i] == q;
  }

  lemma PassMakesSpec(peers: Peers, config: Config, stage: Stage, order: seq<PeerId>, before: set<PeerId>)
    requires Ordered(peers, order) && Selection(peers, config, before, |before * Outbound(peers)|)
    ensures var after := Passed(peers, config, stage, order, before);
            Selection(peers, config, after, |after * Outbound(peers)|) && PassSpec(peers, config, stage, before, after)
  {
    hide Ordered, Selection, PassSpec, Passed;
    assert order[0..] == order;
    PassFrom(peers, config, stage, order, 0, before, before);
  }

  // ----- Which selections a pass can make -----

  lemma {:induction false} AllListed(among: set<PeerId>) returns (l: seq<PeerId>)
    ensures Distinct(l) && Elements(l) == among
    decreases among
  {
    if among == {} {
      l := [];
    } else {
      var p :| p in among;
      var rest := AllListed(among - {p});
      l := [p] + rest;
      assert Elements(l) == {p} + Elements(rest);
      assert forall i :: 0 <= i < |rest| ==> rest[i] in Elements(rest);
    }
  }

  lemma {:induction false} SortedExists(l: seq<PeerId>, le: (PeerId, PeerId) -> bool) returns (r: seq<PeerId>)
    requires TotalPreorder(le) && Distinct(l)
    ensures Distinct(r) && Elements(r) == Elements(l) && forall i, j :: 0 <= i <= j < |r| ==> le(r[i], r[j])
    decreases |l|
  {
    if l == [] {
      r := [];
    } else {
      var i := LeastExists(l, le);
      var rest := l[..i] + l[i + 1..];
      var sorted := SortedExists(rest, le);
      r := [l[i]] + sorted;
      assert Elements(l) == {l[i]} + Elements(rest) && Elements(r) == {l[i]} + Elements(sorted);
      assert forall j :: 0 <= j < |sorted| ==> sorted[j] in Elements(rest);
      assert forall p :: p in rest ==> p in l && p != l[i];
      assert forall p :: p in l ==> le(l[i], p);
    }
  }

  /** Worse scores first, and of equal scores those that are to be selected. */
  predicate Sooner(peers: Peers, chosen: set<PeerId>, a: PeerId, b: PeerId) {
    var x, y := ScoreOf(peers, a), ScoreOf(peers, b);
    StrictlyWorse(x, y) || (Worse(x, y) && Worse(y, x) && (b in chosen ==> a in chosen))
  }

  /** An order from the worst score up in which, of equal scores, those of `chosen` come first. */
  lemma SoonerOrder(peers: Peers, chosen: set<PeerId>) returns (order: seq<PeerId>)
    ensures Ordered(peers, order) && forall i, j :: 0 <= i <= j < |order| ==> Sooner(peers, chosen, order[i], order[j])
  {
    var keys := AllListed(peers.Keys);
    var le := (a: PeerId, b: PeerId) => Sooner(peers, chosen, a, b);
    assert TotalPreorder(le);
    order := SortedExists(keys, le);
    assert forall i, j :: 0 <= i <= j < |order| ==> le(order[i], order[j]);
    forall i, j | 0 <= i <= j < |order|
      ensures Sooner(peers, chosen, order[i], order[j]) && Worse(ScoreOf(peers, order[i]), ScoreOf(peers, order[j]))
    {
      assert le(order[i], order[j]);
    }
  }

  /** In the middle of such an order exactly the chosen ones so far are selected. */
  ghost predicate OnTheWay(order: seq<PeerId>, k: nat, before: set<PeerId>, toPrune: set<PeerId>, after: set<PeerId>) {
    k <= |order| && toPrune == before + (after * Elements(order[..k])) && before <= after
  }

  lemma OnTheWayNext(order: seq<PeerId>, k: nat, before: set<PeerId>, toPrune: set<PeerId>, after: set<PeerId>)
    requires OnTheWay(order, k, before, toPrune, after) && k < |order|
    ensures OnTheWay(order, k + 1, before, if order[k] in after then toPrune + {order[k]} else toPrune, after)
  {
    assert order[..k + 1] == order[..k] + [order[k]];
    assert Elements(order[..k + 1]) == Elements(order[..k]) + {order[k]};
  }

  /** A chosen peer that is met is within the excess and the quota. */
  lemma ChosenIsTaken(peers: Peers, config: Config, toPrune: set<PeerId>, after: set<PeerId>, p: PeerId)
    requires Selection(peers, config, after, |after * Outbound(peers)|) && toPrune <= after && p in after && p !in toPrune
    ensures |toPrune| < Excess(peers, config) && WithinQuota(peers, config, toPrune, p)
  {
    FewerPeers(toPrune + {p}, after);
    FewerPeers((toPrune + {p}) * Outbound(peers), after * Outbound(peers));
    if peers[p].isOutboundOnly {
      assert (toPrune + {p}) * Outbound(peers) == toPrune * Outbound(peers) + {p};
    }
  }

  /** Another eligible peer that is met is passed over, or the pass is over. */
  lemma OtherIsLeft(peers: Peers, config: Config, stage: Stage, order: seq<PeerId>, k: nat, before: set<PeerId>, toPrune: set<PeerId>, after: set<PeerId>)
    requires PassSpec(peers, config, stage, before, after) && Ordered(peers, order) && k < |order|
    requires forall i, j :: 0 <= i <= j < |order| ==> Sooner(peers, after, order[i], order[j])
    requires OnTheWay(order, k, before, toPrune, after) && LeftOut(peers, stage, after, order[k]) && |toPrune| < Excess(peers, config)
    ensures !WithinQuota(peers, config, toPrune, order[k])
  {
    hide Eligible, StrictlyWorse, Sooner, Ordered;
    var q := order[k];
    forall p | p in after - toPrune
      ensures p in after - before && StrictlyWorse(peers[q].score, peers[p].score)
    {
      ToComeIsBetter(peers, stage, order, k, before, toPrune, after, p);
    }
    assert toPrune <= after;
    if toPrune != after {
      assert after == toPrune + (after - toPrune);
      var p :| p in after - toPrune;
    }
    assert PassedOver(peers, config, q, after);
    assert forall x :: x in after - toPrune ==> !peers[x].isOutboundOnly;
    assert toPrune * Outbound(peers) == after * Outbound(peers);
  }

  /** Whoever is still to be chosen has a strictly better score than one who is met and not chosen. */
  lemma ToComeIsBetter(peers: Peers, stage: Stage, order: seq<PeerId>, k: nat, before: set<PeerId>, toPrune: set<PeerId>, after: set<PeerId>, p: PeerId)
    requires Ordered(peers, order) && k < |order| && after <= peers.Keys
    requires forall i, j :: 0 <= i <= j < |order| ==> Sooner(peers, after, order[i], order[j])
    requires OnTheWay(order, k, before, toPrune, after) && LeftOut(peers, stage, after, order[k]) && p in after - toPrune
    ensures p in after - before && StrictlyWorse(peers[order[k]].score, peers[p].score)
  {
    hide Eligible, Worse, WorstFirst, Distinct;
    assert p in Elements(order);
    var j :| 0 <= j < |order| && order[j] == p;
    assert Sooner(peers, after, order[k], order[j]);
  }

  lemma {:induction false} PassReaches(peers: Peers, config: Config, stage: Stage, order: seq<PeerId>, k: nat, before: set<PeerId>, toPrune: set<PeerId>, after: set<PeerId>)
    requires PassSpec(peers, config, stage, before, after) && Selection(peers, config, after, |after * Outbound(peers)|)
    requires Ordered(peers, order) && (forall i, j :: 0 <= i <= j < |order| ==> Sooner(peers, after, order[i], order[j]))
    requires OnTheWay(order, k, before, toPrune, after)
    ensures Passed(peers, config, stage, order[k..], toPrune) == after
    decreases |order| - k
  {
    hide Eligible, Selection, Sooner, PassSpec, OnTheWay, Ordered, WithinQuota, Excess;
    OnTheWayMeans(peers, config, stage, order, k, before, toPrune, after);
    if k < |order| {
      OrderedMember(peers, order, k);
      assert order[k..][1..] == order[k + 1..];
      OnTheWayNext(order, k, before, toPrune, after);
      var p := order[k];
      if p in after {
        if p in toPrune {
          assert toPrune + {p} == toPrune;
        } else {
          ChosenIsTaken(peers, config, toPrune, after, p);
        }
        PassReaches(peers, config, stage, order, k + 1, before, toPrune + {p}, after);
      } else {
        if Eligible(stage, peers[p]) && |toPrune| < Excess(peers, config) {
          OtherIsLeft(peers, config, stage, order, k, before, toPrune, after);
        }
        PassReaches(peers, config, stage, order, k + 1, before, toPrune, after);
      }
    }
  }

  lemma OnTheWayMeans(peers: Peers, config: Config, stage: Stage, order: seq<PeerId>, k: nat, before: set<PeerId>, toPrune: set<PeerId>, after: set<PeerId>)
    requires PassSpec(peers, config, stage, before, after) && Selection(peers, config, after, |after * Outbound(peers)|)
    requires Ordered(peers, order) && OnTheWay(order, k, before, toPrune, after)
    ensures k <= |order| && before <= toPrune <= after && (k == |order| ==> toPrune == after)
    ensures |toPrune| >= Excess(peers, config) ==> toPrune == after
    ensures forall p :: p in after && p !in toPrune ==> p in peers && Eligible(stage, peers[p])
  {
    hide Eligible, Outbound, LeftOut, StrictlyWorse, PassedOver, WorstFirst, Distinct;
    if k == |order| {
      assert order[..k] == order;
      assert after * peers.Keys == after;
    }
    AllIfAsMany(toPrune, after);
  }

  lemma AllIfAsMany(a: set<PeerId>, b: set<PeerId>)
    requires a <= b
    ensures |a| >= |b| ==> a == b
  {
    assert b == a + (b - a);
  }

  /** Exactly the selections that meet the specification are those of a pass over some order from the worst score up. */
  lemma PassIsExact(peers: Peers, config: Config, stage: Stage, before: set<PeerId>, after: set<PeerId>)
    requires Selection(peers, config, before, |before * Outbound(peers)|)
    ensures PassSpec(peers, config, stage, before, after) && Selection(peers, config, after, |after * Outbound(peers)|) <==>
            exists order :: Ordered(peers, order) && after == Passed(peers, config, stage, order, before)
  {
    hide PassSpec, Selection, Ordered, Passed, Sooner, OnTheWay;
    if PassSpec(peers, config, stage, before, after) && Selection(peers, config, after, |after * Outbound(peers)|) {
      var order := SoonerOrder(peers, after);
      NobodyMet(peers, config, stage, order, before, after);
      PassReaches(peers, config, stage, order, 0, before, before, after);
      assert order[0..] == order;
    }
    if order :| Ordered(peers, order) && after == Passed(peers, config, stage, order, before) {
      PassMakesSpec(peers, config, stage, order, before);
    }
  }

  lemma NobodyMet(peers: Peers, config: Config, stage: Stage, order: seq<PeerId>, before: set<PeerId>, after: set<PeerId>)
    requires PassSpec(peers, config, stage, before, after)
    ensures OnTheWay(order, 0, before, before, after)
  {
    assert order[..0] == [];
  }

  lemma FewerPeers(a: set<PeerId>, b: set<PeerId>)
    requires a <= b
    ensures |a| <= |b|
  {
    assert b == a + (b - a);
  }

  // ----- Stage three -----

  /** The peers stage three looks at: neither trusted nor already selected. Future duty is not asked about. */
  function Considered(peers: Peers, toPrune: set<PeerId>): Peers {
    map p | p in peers && !peers[p].isTrusted && p !in toPrune :: peers[p]
  }

  function Pushed(lookup: Lookup, p: PeerId, custody: set<SubnetId>): Lookup {
    map s | s in lookup.Keys + custody ::
      (if s in lookup then lookup[s] else []) + (if s in custody then [p] else [])
  }

  ghost predicate ExactLists(lookup: Lookup, info: Peers) {
    && (forall s :: s in lookup ==> Distinct(lookup[s]) && Elements(lookup[s]) == OnCustody(info, s))
    && (forall p, s :: p in info && s in info[p].custodySubnets ==> s in lookup)
  }

  lemma PushedIsExact(lookup: Lookup, info: Peers, p: PeerId, i: PeerInfo)
    requires ExactLists(lookup, info) && p !in info
    ensures ExactLists(Pushed(lookup, p, i.custodySubnets), info[p := i])
  {
    var lookup', info' := Pushed(lookup, p, i.custodySubnets), info[p := i];
    forall s | s in lookup'
      ensures Distinct(lookup'[s]) && Elements(lookup'[s]) == OnCustody(info', s)
    {
      var l := if s in lookup then lookup[s] else [];
      assert Elements(l) == OnCustody(info, s);
      assert p !in Elements(l);
      assert Elements(l + [p]) == Elements(l) + {p};
      if s in i.custodySubnets {
        assert lookup'[s] == l + [p];
        assert OnCustody(info', s) == OnCustody(info, s) + {p};
      } else {
        assert lookup'[s] == l;
        assert OnCustody(info', s) == OnCustody(info, s);
      }
    }
  }

  method BuildCustodySubnetLookup(info: Peers) returns (lookup: Lookup)
    ensures ExactLists(lookup, info)
  {
    lookup := map[];
    var keys := ListOf(info.Keys);
    ghost var done: Peers := map[];
    for k := 0 to |keys|
      invariant done.Keys == Elements(keys[..k]) && (forall p :: p in done ==> p in info && done[p] == info[p])
      invariant ExactLists(lookup, done)
    {
      var p := keys[k];
      assert p in Elements(keys) && p !in Elements(keys[..k]);
      assert Elements(keys[..k + 1]) == Elements(keys[..k]) + {p};
      PushedIsExact(lookup, done, p, info[p]);
      lookup := Pushed(lookup, p, info[p].custodySubnets);
      done := done[p := info[p]];
    }
    assert keys[..|keys|] == keys;
    assert done == info;
  }

  /** Peers with fewer custody subnets go first, then those that are not synced. */
  function RemovalKey(info: Peers, p: PeerId): (nat, bool) {
    if p in info then (|info[p].custodySubnets|, info[p].isSyncedOrAdvanced) else (0, false)
  }

  predicate RemovedBefore(info: Peers, a: PeerId, b: PeerId) {
    var (n, x) := RemovalKey(info, a);
    var (m, y) := RemovalKey(info, b);
    n < m || (n == m && (!x || y))
  }

  method FindPruneCandidate(subnet: SubnetId, lookup: Lookup, info: Peers, config: Config, outbound: nat, pruned: nat)
    returns (r: Option<PeerId>)
    ensures r.Some? ==>
              && subnet in lookup && r.value in lookup[subnet] && r.value in info
              && !ShouldProtect(info[r.value], config, lookup, info, outbound, pruned)
              && forall q :: q in lookup[subnet] && q in info && !ShouldProtect(info[q], config, lookup, info, outbound, pruned) ==>
                             RemovedBefore(info, r.value, q)
    ensures r.None? && subnet in lookup ==>
              forall q :: q in lookup[subnet] && q in info ==> ShouldProtect(info[q], config, lookup, info, outbound, pruned)
  {
    if subnet !in lookup {
      return None;
    }
    var sorted := Sorted(lookup[subnet], (a: PeerId, b: PeerId) => RemovedBefore(info, a, b));
    assert forall q :: q in lookup[subnet] <==> q in Elements(lookup[subnet]);
    assert forall q :: q in sorted <==> q in Elements(sorted);
    for k := 0 to |sorted|
      invariant forall i :: 0 <= i < k && sorted[i] in info ==> ShouldProtect(info[sorted[i]], config, lookup, info, outbound, pruned)
    {
      if sorted[k] in info && !ShouldProtect(info[sorted[k]], config, lookup, info, outbound, pruned) {
        return Some(sorted[k]);
      }
    }
    return None;
  }

  function NonEmpty(lookup: Lookup): set<SubnetId> {
    set s | s in lookup && lookup[s] != []
  }

  lemma {:induction false} DensestExists(lookup: Lookup, among: set<SubnetId>) returns (d: SubnetId)
    requires among != {} && among <= lookup.Keys
    ensures d in among && forall s :: s in among ==> |lookup[s]| <= |lookup[d]|
    decreases among
  {
    var s :| s in among;
    if among == {s} {
      d := s;
    } else {
      var e := DensestExists(lookup, among - {s});
      d := if |lookup[s]| < |lookup[e]| then e else s;
    }
  }

  /** The subnet with the longest list, if any list is left. */
  method DensestSubnet(lookup: Lookup) returns (d: Option<SubnetId>)
    ensures d.None? <==> NonEmpty(lookup) == {}
    ensures d.Some? ==> d.value in NonEmpty(lookup) && forall s :: s in lookup ==> |lookup[s]| <= |lookup[d.value]|
  {
    if NonEmpty(lookup) == {} {
      return None;
    }
    ghost var w := DensestExists(lookup, NonEmpty(lookup));
    assert forall s :: s in lookup && s !in NonEmpty(lookup) ==> |lookup[s]| == 0;
    var s :| s in NonEmpty(lookup) && forall s' :: s' in lookup ==> |lookup[s']| <= |lookup[s]|;
    return Some(s);
  }

  /** Whoever was protected when stage three began is protected still. */
  ghost predicate StillProtected(config: Config, before: Peers, info: Peers, outbound: nat, pruned0: nat, pruned: nat) {
    forall p :: p in info && p in before && Protected(before[p], config, before, outbound, pruned0) ==>
                Protected(info[p], config, info, outbound, pruned)
  }

  /** The candidates of stage three were not protected when it began. */
  ghost predicate WereUnprotected(config: Config, before: Peers, ps: set<PeerId>, outbound: nat, pruned0: nat) {
    forall p :: p in ps ==> p in before && !Protected(before[p], config, before, outbound, pruned0)
  }

  lemma StillProtectedNext(config: Config, before: Peers, info: Peers, outbound: nat, pruned0: nat, pruned: nat, pruned': nat, c: PeerId)
    requires StillProtected(config, before, info, outbound, pruned0, pruned) && pruned <= pruned'
    requires c in info && !AttestationProtected(info[c], info)
    ensures StillProtected(config, before, info - {c}, outbound, pruned0, pruned')
  {
    hide Protected;
    forall p | p in info - {c} && p in before && Protected(before[p], config, before, outbound, pruned0)
      ensures Protected((info - {c})[p], config, info - {c}, outbound, pruned')
    {
      ProtectionIsMonotone(info, c, info[p], config, outbound, pruned, pruned');
    }
  }

  /** A peer that stage three may give up: it looks at it, it custodies a subnet, and nothing protects it on the counts without `gone`. */
  ghost predicate Exposed(peers: Peers, config: Config, gone: set<PeerId>, p: PeerId) {
    var info := Considered(peers, gone);
    p in info && info[p].custodySubnets != {} && !Protected(info[p], config, info, |Outbound(peers)|, |gone * Outbound(peers)|)
  }

  /** Every survivor that custodies a subnet is protected on the exact final counts. */
  ghost predicate Maximal(peers: Peers, config: Config, toPrune: set<PeerId>) {
    forall p :: !Exposed(peers, config, toPrune, p)
  }

  /**
    The next peer to go, on exact counts: it is exposed and on `s`, no subnet with an exposed peer has more peers
    than `s`, and of the exposed peers on `s` none has to go before it.
  */
  ghost predicate Pick(peers: Peers, config: Config, gone: set<PeerId>, s: SubnetId, c: PeerId) {
    var info := Considered(peers, gone);
    && c in OnCustody(info, s) && Exposed(peers, config, gone, c)
    && (forall q :: q in OnCustody(info, s) && Exposed(peers, config, gone, q) ==> RemovedBefore(info, c, q))
    && (forall s', q :: q in OnCustody(info, s') && Exposed(peers, config, gone, q) ==> |OnCustody(info, s')| <= |OnCustody(info, s)|)
  }

  /** A run of stage three: each peer in turn is one that may go next. */
  ghost predicate Greedy(peers: Peers, config: Config, early: set<PeerId>, picks: seq<PeerId>) {
    picks == [] ||
    var init, last := picks[..|picks| - 1], picks[|picks| - 1];
    Greedy(peers, config, early, init) && exists s :: Pick(peers, config, early + Elements(init), s, last)
  }

  /** What every run of stage three keeps. */
  ghost predicate Progress(peers: Peers, config: Config, early: set<PeerId>, toPrune: set<PeerId>) {
    var outbound, before, info := |Outbound(peers)|, Considered(peers, early), Considered(peers, toPrune);
    && Selection(peers, config, toPrune, |toPrune * Outbound(peers)|) && early <= toPrune
    && (forall p :: p in toPrune - early ==> peers[p].custodySubnets != {})
    && Kept(config, before, info)
    && StillProtected(config, before, info, outbound, |early * Outbound(peers)|, |toPrune * Outbound(peers)|)
    && WereUnprotected(config, before, toPrune - early, outbound, |early * Outbound(peers)|)
  }

  lemma ProgressStarts(peers: Peers, config: Config, early: set<PeerId>)
    requires Selection(peers, config, early, |early * Outbound(peers)|)
    ensures Progress(peers, config, early, early)
  {
    assert early - early == {};
  }

  lemma Unconsidered(peers: Peers, gone: set<PeerId>, c: PeerId)
    ensures Considered(peers, gone + {c}) == Considered(peers, gone) - {c}
  {}

  /** Giving up an exposed peer makes progress, whatever the order. */
  lemma ProgressNext(peers: Peers, config: Config, early: set<PeerId>, toPrune: set<PeerId>, c: PeerId)
    requires Progress(peers, config, early, toPrune) && |toPrune| < Excess(peers, config) && Exposed(peers, config, toPrune, c)
    ensures Progress(peers, config, early, toPrune + {c})
    ensures |(toPrune + {c}) * Outbound(peers)| == PrunedAfter(peers[c], |toPrune * Outbound(peers)|)
  {
    hide Kept, StillProtected, WereUnprotected, Selection, Protected, Outbound, Considered, Excess, AttestationProtected;
    var outbound, before, info := |Outbound(peers)|, Considered(peers, early), Considered(peers, toPrune);
    var pruned0, pruned := |early * Outbound(peers)|, |toPrune * Outbound(peers)|;
    SelectExposed(peers, config, early, toPrune, c);
    Unconsidered(peers, toPrune, c);
    NotAttestationProtected(info[c], config, info, outbound, pruned);
    KeptAfterPrune(config, before, info, c, outbound, pruned);
    StillProtectedNext(config, before, info, outbound, pruned0, pruned, PrunedAfter(info[c], pruned), c);
    WereUnprotectedNext(config, before, info, outbound, pruned0, pruned, toPrune - early, c);
    assert toPrune + {c} - early == toPrune - early + {c};
  }

  lemma SelectExposed(peers: Peers, config: Config, early: set<PeerId>, toPrune: set<PeerId>, c: PeerId)
    requires Selection(peers, config, toPrune, |toPrune * Outbound(peers)|) && early <= toPrune
    requires |toPrune| < Excess(peers, config) && Exposed(peers, config, toPrune, c)
    ensures c in peers && c !in toPrune && peers[c].custodySubnets != {} && c in Considered(peers, early) && Considered(peers, toPrune)[c] == peers[c]
    ensures Selection(peers, config, toPrune + {c}, |(toPrune + {c}) * Outbound(peers)|)
    ensures |(toPrune + {c}) * Outbound(peers)| == PrunedAfter(peers[c], |toPrune * Outbound(peers)|)
  {
    hide SamplingProtected, SyncProtected, AttestationProtected;
    Select(peers, config, toPrune, |toPrune * Outbound(peers)|, c);
  }

  lemma NotAttestationProtected(c: PeerInfo, config: Config, info: Peers, outbound: nat, pruned: nat)
    requires !Protected(c, config, info, outbound, pruned)
    ensures !AttestationProtected(c, info)
  {}

  lemma WereUnprotectedNext(config: Config, before: Peers, info: Peers, outbound: nat, pruned0: nat, pruned: nat, ps: set<PeerId>, c: PeerId)
    requires StillProtected(config, before, info, outbound, pruned0, pruned) && WereUnprotected(config, before, ps, outbound, pruned0)
    requires c in info && c in before && !Protected(info[c], config, info, outbound, pruned)
    ensures WereUnprotected(config, before, ps + {c}, outbound, pruned0)
  {
    hide Protected;
  }

  lemma NoElements(early: set<PeerId>)
    ensures early + Elements([]) == early
  {}

  lemma ElementsSnoc(early: set<PeerId>, picks: seq<PeerId>, c: PeerId)
    ensures early + Elements(picks + [c]) == early + Elements(picks) + {c}
  {
    assert Elements(picks + [c]) == Elements(picks) + {c};
  }

  lemma GreedySnoc(peers: Peers, config: Config, early: set<PeerId>, picks: seq<PeerId>, s: SubnetId, c: PeerId)
    requires Greedy(peers, config, early, picks) && Pick(peers, config, early + Elements(picks), s, c)
    ensures Greedy(peers, config, early, picks + [c]) && early + Elements(picks + [c]) == early + Elements(picks) + {c}
  {
    hide Pick;
    var all := picks + [c];
    assert all[..|all| - 1] == picks && all[|all| - 1] == c;
    ElementsSnoc(early, picks, c);
  }

  /** A longest list and the first of its unprotected peers: on exact counts that is the next peer to go. */
  lemma CandidateIsPick(peers: Peers, config: Config, toPrune: set<PeerId>, pruned: nat, info: Peers, lookup: Lookup, d: SubnetId, c: PeerId)
    requires info == Considered(peers, toPrune) && pruned == |toPrune * Outbound(peers)|
    requires Indexed(lookup, info, config, |Outbound(peers)|, pruned)
    requires d in NonEmpty(lookup) && forall s :: s in lookup ==> |lookup[s]| <= |lookup[d]|
    requires c in lookup[d] && c in info && !ShouldProtect(info[c], config, lookup, info, |Outbound(peers)|, pruned)
    requires forall q :: q in lookup[d] && q in info && !ShouldProtect(info[q], config, lookup, info, |Outbound(peers)|, pruned) ==> RemovedBefore(info, c, q)
    ensures Pick(peers, config, toPrune, d, c)
  {
    var outbound := |Outbound(peers)|;
    hide Protected, ShouldProtect, RemovedBefore;
    ListIsExact(lookup, info, config, outbound, pruned, d);
    CodeProtectionIsExact(lookup, info, config, outbound, pruned, c);
    assert c in Elements(lookup[d]);
    forall q | q in OnCustody(info, d) && Exposed(peers, config, toPrune, q) ensures RemovedBefore(info, c, q) {
      assert q in Elements(lookup[d]);
      CodeProtectionIsExact(lookup, info, config, outbound, pruned, q);
    }
    forall s, q | q in OnCustody(info, s) && Exposed(peers, config, toPrune, q) ensures |OnCustody(info, s)| <= |OnCustody(info, d)| {
      ListOfExposed(lookup, info, config, outbound, pruned, s, q);
    }
  }

  /** The lists at least as long as that of `d` are cleared, if none of their peers is exposed. */
  function Cleared(lookup: Lookup, n: nat, exposed: set<PeerId>): Lookup {
    map s | s in lookup :: if |lookup[s]| >= n && Elements(lookup[s]) * exposed == {} then [] else lookup[s]
  }

  /**
    Conversely, whoever may go next can be the candidate: once the lists without a candidate that come first are
    cleared, the list of its subnet is a longest one, and it is the first of its unprotected peers.
  */
  lemma PickIsCandidate(peers: Peers, config: Config, toPrune: set<PeerId>, lookup: Lookup, d: SubnetId, c: PeerId)
    requires Indexed(lookup, Considered(peers, toPrune), config, |Outbound(peers)|, |toPrune * Outbound(peers)|) && Pick(peers, config, toPrune, d, c)
    ensures var info, outbound, pruned := Considered(peers, toPrune), |Outbound(peers)|, |toPrune * Outbound(peers)|;
            var cleared := Cleared(lookup, ListLength(lookup, d), set p | p in info && Exposed(peers, config, toPrune, p));
            && Indexed(cleared, info, config, outbound, pruned)
            && d in NonEmpty(cleared) && (forall s :: s in cleared ==> |cleared[s]| <= |cleared[d]|)
            && c in cleared[d] && !ShouldProtect(info[c], config, cleared, info, outbound, pruned)
            && forall q :: q in cleared[d] && q in info && !ShouldProtect(info[q], config, cleared, info, outbound, pruned) ==> RemovedBefore(info, c, q)
  {
    hide Protected, ShouldProtect, RemovedBefore;
    var info, outbound, pruned := Considered(peers, toPrune), |Outbound(peers)|, |toPrune * Outbound(peers)|;
    var exposed := set p | p in info && Exposed(peers, config, toPrune, p);
    var cleared := Cleared(lookup, ListLength(lookup, d), exposed);
    ClearedIsIndexed(peers, config, toPrune, lookup, ListLength(lookup, d), exposed);
    ListOfExposed(lookup, info, config, outbound, pruned, d, c);
    ListIsExact(lookup, info, config, outbound, pruned, d);
    assert c in Elements(lookup[d]) * exposed;
    assert cleared[d] == lookup[d];
    CodeProtectionIsExact(cleared, info, config, outbound, pruned, c);
    forall q | q in cleared[d] && q in info && !ShouldProtect(info[q], config, cleared, info, outbound, pruned) ensures RemovedBefore(info, c, q) {
      CodeProtectionIsExact(cleared, info, config, outbound, pruned, q);
      assert q in Elements(lookup[d]);
    }
    forall s | s in cleared ensures |cleared[s]| <= |cleared[d]| {
      if cleared[s] != [] && |lookup[s]| >= |lookup[d]| {
        ExposedListIsNoLonger(peers, config, toPrune, lookup, exposed, d, c, s);
      }
    }
  }

  lemma ExposedListIsNoLonger(peers: Peers, config: Config, toPrune: set<PeerId>, lookup: Lookup, exposed: set<PeerId>, d: SubnetId, c: PeerId, s: SubnetId)
    requires Indexed(lookup, Considered(peers, toPrune), config, |Outbound(peers)|, |toPrune * Outbound(peers)|) && Pick(peers, config, toPrune, d, c)
    requires exposed == (set p | p in Considered(peers, toPrune) && Exposed(peers, config, toPrune, p))
    requires s in lookup && d in lookup && |lookup[d]| == |OnCustody(Considered(peers, toPrune), d)| && Elements(lookup[s]) * exposed != {}
    ensures |lookup[s]| <= |lookup[d]|
  {
    hide Protected, RemovedBefore;
    var info, outbound, pruned := Considered(peers, toPrune), |Outbound(peers)|, |toPrune * Outbound(peers)|;
    var q :| q in Elements(lookup[s]) * exposed;
    ListIsExact(lookup, info, config, outbound, pruned, s);
    assert lookup[s] != [] && q in OnCustody(info, s);
  }

  lemma ClearedIsIndexed(peers: Peers, config: Config, toPrune: set<PeerId>, lookup: Lookup, n: nat, exposed: set<PeerId>)
    requires Indexed(lookup, Considered(peers, toPrune), config, |Outbound(peers)|, |toPrune * Outbound(peers)|)
    requires exposed == (set p | p in Considered(peers, toPrune) && Exposed(peers, config, toPrune, p))
    ensures Indexed(Cleared(lookup, n, exposed), Considered(peers, toPrune), config, |Outbound(peers)|, |toPrune * Outbound(peers)|)
  {
    hide Protected;
    var info := Considered(peers, toPrune);
    var cleared := Cleared(lookup, n, exposed);
    forall s | s in cleared && Elements(cleared[s]) != OnCustody(info, s)
      ensures cleared[s] == [] && forall p :: p in OnCustody(info, s) ==> Protected(info[p], config, info, |Outbound(peers)|, |toPrune * Outbound(peers)|)
    {
      if Elements(lookup[s]) == OnCustody(info, s) {
        forall p | p in OnCustody(info, s) ensures Protected(info[p], config, info, |Outbound(peers)|, |toPrune * Outbound(peers)|) {
          assert p in Elements(lookup[s]) && p !in Elements(lookup[s]) * exposed;
        }
      }
    }
  }

  lemma ListOfExposed(lookup: Lookup, info: Peers, config: Config, outbound: nat, pruned: nat, s: SubnetId, q: PeerId)
    requires Indexed(lookup, info, config, outbound, pruned)
    requires q in OnCustody(info, s) && !Protected(info[q], config, info, outbound, pruned)
    ensures s in lookup && |lookup[s]| == |OnCustody(info, s)|
  {
    hide Protected;
    DistinctLength(lookup[s]);
  }

  lemma ExhaustedIsMaximal(peers: Peers, config: Config, toPrune: set<PeerId>, lookup: Lookup)
    requires Indexed(lookup, Considered(peers, toPrune), config, |Outbound(peers)|, |toPrune * Outbound(peers)|)
    requires NonEmpty(lookup) == {}
    ensures Maximal(peers, config, toPrune)
  {
    var info := Considered(peers, toPrune);
    forall p ensures !Exposed(peers, config, toPrune, p) {
      if p in info && info[p].custodySubnets != {} {
        var s :| s in info[p].custodySubnets;
        assert s !in NonEmpty(lookup);
        assert p in OnCustody(info, s) && p !in Elements(lookup[s]);
      }
    }
  }

  /** Selects candidates from the densest custody subnet until the excess is gone or nobody is left to give up. */
  method StageThree(peers: Peers, config: Config, toPrune0: set<PeerId>, outboundPruned0: nat)
    returns (toPrune: set<PeerId>, outboundPruned: nat, ghost picks: seq<PeerId>)
    requires Selection(peers, config, toPrune0, outboundPruned0)
    ensures Selection(peers, config, toPrune, outboundPruned)
    ensures toPrune0 <= toPrune
    ensures forall p :: p in toPrune - toPrune0 ==> peers[p].custodySubnets != {}
    ensures WereUnprotected(config, Considered(peers, toPrune0), toPrune - toPrune0, |Outbound(peers)|, outboundPruned0)
    ensures Kept(config, Considered(peers, toPrune0), Considered(peers, toPrune))
    ensures toPrune == toPrune0 + Elements(picks) && Greedy(peers, config, toPrune0, picks)
    ensures |toPrune| < Excess(peers, config) ==> Maximal(peers, config, toPrune)
  {
    hide Protected, ShouldProtect, Greedy, Pick, Maximal, Exposed, RemovedBefore, Kept, StillProtected, WereUnprotected, Indexed;
    hide Progress, Selection, Considered, Outbound, Elements, ExactLists;
    toPrune, outboundPruned, picks := toPrune0, outboundPruned0, [];
    var outbound := |Outbound(peers)|;
    var info := Considered(peers, toPrune);
    var lookup: Lookup := BuildCustodySubnetLookup(info);
    StageStarts(peers, config, toPrune0, outboundPruned, lookup);
    while |toPrune| < Excess(peers, config)
      invariant Progress(peers, config, toPrune0, toPrune) && outboundPruned == |toPrune * Outbound(peers)|
      invariant info == Considered(peers, toPrune) && Indexed(lookup, info, config, outbound, outboundPruned)
      invariant toPrune == toPrune0 + Elements(picks) && Greedy(peers, config, toPrune0, picks)
      decreases |info|, |NonEmpty(lookup)|
    {
      var densest := DensestSubnet(lookup);
      if densest.None? {
        ExhaustedIsMaximal(peers, config, toPrune, lookup);
        break;
      }
      var candidate := FindPruneCandidate(densest.value, lookup, info, config, outbound, outboundPruned);
      if candidate.Some? {
        var c := candidate.value;
        CandidateIsPick(peers, config, toPrune, outboundPruned, info, lookup, densest.value, c);
        GreedySnoc(peers, config, toPrune0, picks, densest.value, c);
        picks := picks + [c];
        toPrune, outboundPruned, info, lookup := PruneCandidate(peers, config, toPrune0, densest.value, c, toPrune, outboundPruned, info, lookup);
      } else {
        IndexedAfterClear(lookup, info, config, outbound, outboundPruned, densest.value);
        ClearedIsSmaller(lookup, densest.value);
        lookup := lookup[densest.value := []];
      }
    }
    ProgressMeans(peers, config, toPrune0, toPrune);
  }

  lemma ProgressMeans(peers: Peers, config: Config, early: set<PeerId>, toPrune: set<PeerId>)
    requires Progress(peers, config, early, toPrune)
    ensures Selection(peers, config, toPrune, |toPrune * Outbound(peers)|) && early <= toPrune
    ensures forall p :: p in toPrune - early ==> peers[p].custodySubnets != {}
    ensures WereUnprotected(config, Considered(peers, early), toPrune - early, |Outbound(peers)|, |early * Outbound(peers)|)
    ensures Kept(config, Considered(peers, early), Considered(peers, toPrune))
  {
    hide WereUnprotected, Kept, StillProtected;
  }

  lemma ClearedIsSmaller(lookup: Lookup, s: SubnetId)
    requires s in NonEmpty(lookup)
    ensures |NonEmpty(lookup[s := []])| < |NonEmpty(lookup)|
  {
    assert NonEmpty(lookup[s := []]) == NonEmpty(lookup) - {s};
  }

  function PrunedAfter(i: PeerInfo, outboundPruned: nat): nat {
    if i.isOutboundOnly then outboundPruned + 1 else outboundPruned
  }

  lemma StageStarts(peers: Peers, config: Config, early: set<PeerId>, pruned: nat, lookup: Lookup)
    requires Selection(peers, config, early, pruned) && ExactLists(lookup, Considered(peers, early))
    ensures Indexed(lookup, Considered(peers, early), config, |Outbound(peers)|, pruned)
    ensures Progress(peers, config, early, early) && pruned == |early * Outbound(peers)|
    ensures Greedy(peers, config, early, []) && early == early + Elements([])
  {
    hide Progress;
    ProgressStarts(peers, config, early);
  }

  /** Takes the next peer to go out of the maps and into the selection. */
  method PruneCandidate(peers: Peers, config: Config, ghost early: set<PeerId>, ghost subnet: SubnetId, c: PeerId,
                        toPrune0: set<PeerId>, outboundPruned0: nat, info0: Peers, lookup0: Lookup)
    returns (toPrune: set<PeerId>, outboundPruned: nat, info: Peers, lookup: Lookup)
    requires Progress(peers, config, early, toPrune0) && |toPrune0| < Excess(peers, config)
    requires info0 == Considered(peers, toPrune0) && outboundPruned0 == |toPrune0 * Outbound(peers)|
    requires Indexed(lookup0, info0, config, |Outbound(peers)|, outboundPruned0) && Pick(peers, config, toPrune0, subnet, c)
    ensures toPrune == toPrune0 + {c} && info == info0 - {c} && lookup == Retained(lookup0, c)
    ensures Progress(peers, config, early, toPrune) && outboundPruned == |toPrune * Outbound(peers)|
    ensures info == Considered(peers, toPrune) && |info| < |info0|
    ensures Indexed(lookup, info, config, |Outbound(peers)|, outboundPruned)
  {
    hide Progress, Indexed, Outbound, RemovedBefore;
    toPrune := toPrune0 + {c};
    outboundPruned := PrunedAfter(info0[c], outboundPruned0);
    lookup := map s | s in lookup0 :: Without(lookup0[s], c);
    info := info0 - {c};
    ProgressNext(peers, config, early, toPrune0, c);
    Unconsidered(peers, toPrune0, c);
    IndexedAfterPrune(lookup0, info0, config, |Outbound(peers)|, outboundPruned0, outboundPruned, c);
    assert info.Keys == info0.Keys - {c};
  }

  // ----- The whole prune -----

  /** Stage one selects `first`; stage two runs only if that falls short of the excess, and leaves `early`. */
  ghost predicate EarlySpec(peers: Peers, config: Config, first: set<PeerId>, early: set<PeerId>) {
    && PassSpec(peers, config, NegativeScore, {}, first)
    && if |first| < Excess(peers, config) then PassSpec(peers, config, NoLongLivedSubnet, first, early) else early == first
  }

  ghost predicate EarlyOutcome(peers: Peers, config: Config, first: set<PeerId>, early: set<PeerId>) {
    Selection(peers, config, early, |early * Outbound(peers)|) && EarlySpec(peers, config, first, early)
  }

  /** The first two passes over these orders. */
  function FirstPass(peers: Peers, config: Config, order: seq<PeerId>): set<PeerId> {
    Passed(peers, config, NegativeScore, order, {})
  }

  function SecondPass(peers: Peers, config: Config, order: seq<PeerId>, first: set<PeerId>): set<PeerId> {
    if |first| < Excess(peers, config) then Passed(peers, config, NoLongLivedSubnet, order, first) else first
  }

  /** Exactly the outcomes of the first two stages are those of two passes over some orders from the worst score up. */
  lemma EarlyIsExact(peers: Peers, config: Config, first: set<PeerId>, early: set<PeerId>)
    ensures EarlyOutcome(peers, config, first, early) <==>
            exists one, two :: Ordered(peers, one) && Ordered(peers, two) && first == FirstPass(peers, config, one) && early == SecondPass(peers, config, two, first)
  {
    hide PassSpec, Selection, Ordered, Passed, Excess, Outbound;
    EmptySelection(peers, config);
    assert {} * Outbound(peers) == {};
    PassIsExact(peers, config, NegativeScore, {}, first);
    if EarlyOutcome(peers, config, first, early) {
      FirstIsSelection(peers, config, first, early);
      PassIsExact(peers, config, NoLongLivedSubnet, first, early);
    }
    if one, two :| Ordered(peers, one) && Ordered(peers, two) && first == FirstPass(peers, config, one) && early == SecondPass(peers, config, two, first) {
      PassIsExact(peers, config, NoLongLivedSubnet, first, early);
    }
  }

  lemma FirstIsSelection(peers: Peers, config: Config, first: set<PeerId>, early: set<PeerId>)
    requires EarlyOutcome(peers, config, first, early)
    ensures Selection(peers, config, first, |first * Outbound(peers)|)
  {
    hide Eligible, LeftOut, StrictlyWorse, PassedOver, Outbound;
    assert first <= early;
    FewerPeers(first, early);
    FewerPeers(first * Outbound(peers), early * Outbound(peers));
  }

  /** The whole prune; stage three runs only if the first two fall short of the excess. */
  ghost predicate PruneSpec(peers: Peers, config: Config, first: set<PeerId>, early: set<PeerId>, picks: seq<PeerId>, toPrune: set<PeerId>) {
    && Selection(peers, config, toPrune, |toPrune * Outbound(peers)|)
    && EarlyOutcome(peers, config, first, early)
    && toPrune == early + Elements(picks) && Greedy(peers, config, early, picks)
    && (|early| >= Excess(peers, config) ==> picks == [])
    && (forall p :: p in toPrune - early ==> peers[p].custodySubnets != {})
    && WereUnprotected(config, Considered(peers, early), toPrune - early, |Outbound(peers)|, |early * Outbound(peers)|)
    && Kept(config, Considered(peers, early), Considered(peers, toPrune))
    && (|toPrune| < Excess(peers, config) ==> Maximal(peers, config, toPrune))
  }

  lemma NothingChanged(config: Config, info: Peers, outbound: nat, pruned: nat)
    ensures Kept(config, info, info) && WereUnprotected(config, info, {}, outbound, pruned)
  {}

  lemma EmptySelection(peers: Peers, config: Config)
    ensures Selection(peers, config, {}, 0)
  {
    assert {} * Outbound(peers) == {};
  }

  /** Stages one and two: the worst scores, then peers without a long-lived subnet. */
  method EarlyStages(peers: Peers, config: Config) returns (toPrune: set<PeerId>, outboundPruned: nat, ghost first: set<PeerId>)
    ensures Selection(peers, config, toPrune, outboundPruned) && EarlySpec(peers, config, first, toPrune)
  {
    hide Selection, PassSpec, Ordered, Passed;
    toPrune, outboundPruned := {}, 0;
    EmptySelection(peers, config);
    var order := WorstConnectedPeers(peers);
    toPrune, outboundPruned := PrunePass(peers, config, NegativeScore, order, toPrune, outboundPruned);
    first := toPrune;
    if |toPrune| < Excess(peers, config) {
      order := WorstConnectedPeers(peers);
      toPrune, outboundPruned := PrunePass(peers, config, NoLongLivedSubnet, order, toPrune, outboundPruned);
    }
  }

  /** The guarantees of the stages make up those of the whole prune. */
  lemma StagesMakeSpec(peers: Peers, config: Config, first: set<PeerId>, early: set<PeerId>, outbound0: nat, picks: seq<PeerId>, toPrune: set<PeerId>, outboundPruned: nat)
    requires Selection(peers, config, early, outbound0) && Selection(peers, config, toPrune, outboundPruned)
    requires EarlySpec(peers, config, first, early) && (|early| >= Excess(peers, config) ==> picks == [])
    requires toPrune == early + Elements(picks) && Greedy(peers, config, early, picks)
    requires forall p :: p in toPrune - early ==> peers[p].custodySubnets != {}
    requires WereUnprotected(config, Considered(peers, early), toPrune - early, |Outbound(peers)|, outbound0)
    requires Kept(config, Considered(peers, early), Considered(peers, toPrune))
    requires |toPrune| < Excess(peers, config) ==> Maximal(peers, config, toPrune)
    ensures PruneSpec(peers, config, first, early, picks, toPrune)
    ensures |Outbound(peers - toPrune)| >= Min(|Outbound(peers)|, config.targetOutboundPeers)
    ensures |peers - toPrune| >= Min(|peers|, config.targetPeers)
  {
    hide WereUnprotected, Kept, Maximal, EarlySpec, Greedy, Considered, Elements, Outbound, Excess;
    Survivors(peers, config, toPrune, outboundPruned);
  }

  lemma NoStageThree(peers: Peers, config: Config, first: set<PeerId>, early: set<PeerId>, outboundPruned: nat)
    requires Selection(peers, config, early, outboundPruned) && |early| >= Excess(peers, config) && EarlySpec(peers, config, first, early)
    ensures PruneSpec(peers, config, first, early, [], early)
    ensures |Outbound(peers - early)| >= Min(|Outbound(peers)|, config.targetOutboundPeers)
    ensures |peers - early| >= Min(|peers|, config.targetPeers)
  {
    hide WereUnprotected, Kept, Maximal, EarlySpec, Selection;
    assert early - early == {} && early == early + Elements([]);
    NothingChanged(config, Considered(peers, early), |Outbound(peers)|, outboundPruned);
    StagesMakeSpec(peers, config, first, early, outboundPruned, [], early, outboundPruned);
  }

  method PruneExcessPeers(peers: Peers, config: Config) returns (toPrune: set<PeerId>, ghost first: set<PeerId>, ghost early: set<PeerId>, ghost picks: seq<PeerId>)
    ensures PruneSpec(peers, config, first, early, picks, toPrune)
    ensures |peers| <= config.targetPeers ==> toPrune == {}
    ensures |Outbound(peers - toPrune)| >= Min(|Outbound(peers)|, config.targetOutboundPeers)
    ensures |peers - toPrune| >= Min(|peers|, config.targetPeers)
  {
    hide WereUnprotected, Kept, Maximal, EarlySpec, Selection, Outbound, PruneSpec, Greedy;
    picks := [];
    if |peers| <= config.targetPeers {
      toPrune, first, early := {}, {}, {};
      NoExcess(peers, config);
      NoStageThree(peers, config, {}, {}, 0);
      return;
    }
    var outboundPruned;
    toPrune, outboundPruned, first := EarlyStages(peers, config);
    early := toPrune;
    if |toPrune| >= Excess(peers, config) {
      NoStageThree(peers, config, first, toPrune, outboundPruned);
      return;
    }
    ghost var outbound0 := outboundPruned;
    toPrune, outboundPruned, picks := StageThree(peers, config, toPrune, outboundPruned);
    StagesMakeSpec(peers, config, first, early, outbound0, picks, toPrune, outboundPruned);
  }

  lemma NoExcess(peers: Peers, config: Config)
    requires |peers| <= config.targetPeers
    ensures Selection(peers, config, {}, 0) && EarlySpec(peers, config, {}, {})
  {
    EmptySelection(peers, config);
  }

  lemma Survivors(peers: Peers, config: Config, toPrune: set<PeerId>, outboundPruned: nat)
    requires Selection(peers, config, toPrune, outboundPruned)
    ensures |Outbound(peers - toPrune)| >= Min(|Outbound(peers)|, config.targetOutboundPeers)
    ensures |peers - toPrune| >= Min(|peers|, config.targetPeers)
  {
    assert Outbound(peers - toPrune) == Outbound(peers) - toPrune * Outbound(peers);
    assert (peers - toPrune).Keys == peers.Keys - toPrune;
  }

  // ----- Validator duties -----

  /** Stage three gives somebody up if and only if somebody is exposed when it begins. */
  lemma StageThreeActsIffExposed(peers: Peers, config: Config, first: set<PeerId>, early: set<PeerId>, picks: seq<PeerId>, toPrune: set<PeerId>)
    requires PruneSpec(peers, config, first, early, picks, toPrune) && |early| < Excess(peers, config)
    ensures toPrune != early <==> exists p :: Exposed(peers, config, early, p)
  {
    hide Protected, Outbound, Kept, EarlySpec;
    if toPrune != early {
      var p :| p in toPrune - early;
      assert Exposed(peers, config, early, p);
    }
  }

  /** Whoever is given up was selected by its score or for want of a subnet, and has no duty, or was exposed. */
  lemma GivenUpWasExposed(peers: Peers, config: Config, first: set<PeerId>, early: set<PeerId>, picks: seq<PeerId>, toPrune: set<PeerId>, p: PeerId)
    requires PruneSpec(peers, config, first, early, picks, toPrune) && p in toPrune
    ensures p in peers && if p in early then !peers[p].hasFutureDuty else Exposed(peers, config, early, p)
  {
    hide Protected, Outbound, Kept, Maximal, StrictlyWorse, PassedOver;
  }

  /** If the exposed peers all have a duty, or none of them has, a peer with a duty is given up if and only if stage three runs and one is exposed. */
  lemma DutyIsLostIff(peers: Peers, config: Config, first: set<PeerId>, early: set<PeerId>, picks: seq<PeerId>, toPrune: set<PeerId>)
    requires PruneSpec(peers, config, first, early, picks, toPrune)
    requires (forall p :: Exposed(peers, config, early, p) ==> peers[p].hasFutureDuty) ||
             (forall p :: Exposed(peers, config, early, p) ==> !peers[p].hasFutureDuty)
    ensures (exists p :: p in toPrune && peers[p].hasFutureDuty) <==>
            (|early| < Excess(peers, config) && exists p :: Exposed(peers, config, early, p) && peers[p].hasFutureDuty)
  {
    hide PruneSpec, Protected, Outbound;
    forall p | p in toPrune
      ensures p in peers && if p in early then !peers[p].hasFutureDuty else Exposed(peers, config, early, p)
    {
      GivenUpWasExposed(peers, config, first, early, picks, toPrune, p);
    }
    OnlyShortPrunesGoOn(peers, config, first, early, picks, toPrune);
    if |early| < Excess(peers, config) {
      StageThreeActsIffExposed(peers, config, first, early, picks, toPrune);
      if p :| Exposed(peers, config, early, p) && peers[p].hasFutureDuty {
        assert toPrune == early + (toPrune - early);
        assert early + {} == early;
        var q :| q in toPrune - early;
        assert Exposed(peers, config, early, q);
      }
    }
  }

  /** With nobody for the first two stages to select, all of this can be read off before the call. */
  lemma DutyIsLostIffAtOnce(peers: Peers, config: Config, first: set<PeerId>, early: set<PeerId>, picks: seq<PeerId>, toPrune: set<PeerId>)
    requires PruneSpec(peers, config, first, early, picks, toPrune)
    requires forall p :: p in peers ==> !Eligible(NegativeScore, peers[p]) && !Eligible(NoLongLivedSubnet, peers[p])
    requires (forall p :: Exposed(peers, config, {}, p) ==> peers[p].hasFutureDuty) ||
             (forall p :: Exposed(peers, config, {}, p) ==> !peers[p].hasFutureDuty)
    ensures (exists p :: p in toPrune && peers[p].hasFutureDuty) <==>
            (0 < Excess(peers, config) && exists p :: Exposed(peers, config, {}, p) && peers[p].hasFutureDuty)
  {
    hide Eligible, Exposed, Selection, WereUnprotected, Kept, Maximal, StrictlyWorse, PassedOver;
    assert early == {} by {
      assert first == {} by { assert first - {} == first; }
      assert early - first == early;
    }
    DutyIsLostIff(peers, config, first, early, picks, toPrune);
  }

  lemma OnlyShortPrunesGoOn(peers: Peers, config: Config, first: set<PeerId>, early: set<PeerId>, picks: seq<PeerId>, toPrune: set<PeerId>)
    requires PruneSpec(peers, config, first, early, picks, toPrune)
    ensures early <= toPrune && (|early| >= Excess(peers, config) ==> toPrune == early)
  {}

  // ----- Which outcomes there are -----

  lemma {:induction false} MostPeers(info: Peers, among: set<SubnetId>) returns (d: SubnetId)
    requires among != {}
    ensures d in among && forall s :: s in among ==> |OnCustody(info, s)| <= |OnCustody(info, d)|
    decreases among
  {
    var s :| s in among;
    if among == {s} {
      d := s;
    } else {
      var e := MostPeers(info, among - {s});
      d := if |OnCustody(info, s)| < |OnCustody(info, e)| then e else s;
    }
  }

  lemma {:induction false} FirstToGo(info: Peers, among: set<PeerId>) returns (c: PeerId)
    requires among != {}
    ensures c in among && forall q :: q in among ==> RemovedBefore(info, c, q)
    decreases among
  {
    var p :| p in among;
    if among == {p} {
      c := p;
    } else {
      var e := FirstToGo(info, among - {p});
      c := if RemovedBefore(info, e, p) then e else p;
      forall q | q in among ensures RemovedBefore(info, c, q) {
        if q != p { assert RemovedBefore(info, e, q); }
      }
    }
  }

  /** While somebody is exposed, somebody is next. */
  lemma PickExists(peers: Peers, config: Config, gone: set<PeerId>, p: PeerId) returns (s: SubnetId, c: PeerId)
    requires Exposed(peers, config, gone, p)
    ensures Pick(peers, config, gone, s, c)
  {
    hide Protected, RemovedBefore;
    var info := Considered(peers, gone);
    var subnets := set q, s | q in info && s in info[q].custodySubnets && Exposed(peers, config, gone, q) :: s;
    var t :| t in info[p].custodySubnets;
    assert t in subnets;
    s := MostPeers(info, subnets);
    var among := set q | q in OnCustody(info, s) && Exposed(peers, config, gone, q);
    var q :| q in info && s in info[q].custodySubnets && Exposed(peers, config, gone, q);
    assert q in among;
    c := FirstToGo(info, among);
  }

  /** Every run of stage three makes progress, one peer a step. */
  lemma {:induction false} GreedyProgress(peers: Peers, config: Config, early: set<PeerId>, picks: seq<PeerId>)
    requires Selection(peers, config, early, |early * Outbound(peers)|) && Greedy(peers, config, early, picks)
    requires |early| + |picks| <= Excess(peers, config)
    ensures Progress(peers, config, early, early + Elements(picks)) && |early + Elements(picks)| == |early| + |picks|
    decreases |picks|
  {
    hide Selection, Progress, Pick, Exposed, Outbound, Elements;
    if picks == [] {
      ProgressStarts(peers, config, early);
      NoElements(early);
    } else {
      var init, last := picks[..|picks| - 1], picks[|picks| - 1];
      assert picks == init + [last];
      ElementsSnoc(early, init, last);
      GreedyProgress(peers, config, early, init);
      var s :| Pick(peers, config, early + Elements(init), s, last);
      PickIsExposed(peers, config, early + Elements(init), s, last);
      ProgressNext(peers, config, early, early + Elements(init), last);
    }
  }

  lemma PickIsExposed(peers: Peers, config: Config, gone: set<PeerId>, s: SubnetId, c: PeerId)
    requires Pick(peers, config, gone, s, c)
    ensures Exposed(peers, config, gone, c) && c in peers && c !in gone
  {
    hide Protected, RemovedBefore;
  }

  /** A run of stage three that has reached the excess, or has nobody left to give up, is an outcome of the prune. */
  lemma GreedyMakesSpec(peers: Peers, config: Config, first: set<PeerId>, early: set<PeerId>, picks: seq<PeerId>)
    requires EarlyOutcome(peers, config, first, early) && Greedy(peers, config, early, picks)
    requires |early| >= Excess(peers, config) ==> picks == []
    requires |early| + |picks| <= Excess(peers, config)
    requires |early| + |picks| < Excess(peers, config) ==> Maximal(peers, config, early + Elements(picks))
    ensures PruneSpec(peers, config, first, early, picks, early + Elements(picks))
  {
    hide Selection, EarlySpec, Greedy, Progress, Kept, WereUnprotected, StillProtected, Maximal, Outbound, Elements;
    GreedyProgress(peers, config, early, picks);
    ProgressMeans(peers, config, early, early + Elements(picks));
  }

  /** Every run can be completed. */
  lemma {:induction false} Completed(peers: Peers, config: Config, first: set<PeerId>, early: set<PeerId>, picks: seq<PeerId>) returns (all: seq<PeerId>)
    requires EarlyOutcome(peers, config, first, early) && Greedy(peers, config, early, picks)
    requires |early| >= Excess(peers, config) ==> picks == []
    requires |early| + |picks| <= Excess(peers, config)
    ensures picks <= all && PruneSpec(peers, config, first, early, all, early + Elements(all))
    decreases Excess(peers, config) - |early| - |picks|
  {
    hide EarlyOutcome, PruneSpec, Greedy, Pick, Exposed;
    if |early| + |picks| < Excess(peers, config) && exists p :: Exposed(peers, config, early + Elements(picks), p) {
      var p :| Exposed(peers, config, early + Elements(picks), p);
      var s, c := PickExists(peers, config, early + Elements(picks), p);
      GreedySnoc(peers, config, early, picks, s, c);
      all := Completed(peers, config, first, early, picks + [c]);
      assert picks <= picks + [c];
    } else {
      GreedyMakesSpec(peers, config, first, early, picks);
      all := picks;
    }
  }

  /** Nobody with a duty has been given up so far, and somebody with a duty is next. */
  ghost predicate DutyIsNext(peers: Peers, config: Config, first: set<PeerId>, early: set<PeerId>, picks: seq<PeerId>, s: SubnetId, p: PeerId) {
    && EarlyOutcome(peers, config, first, early) && |early| + |picks| < Excess(peers, config) && Greedy(peers, config, early, picks)
    && DutyFree(peers, picks)
    && Pick(peers, config, early + Elements(picks), s, p) && p in peers && peers[p].hasFutureDuty
  }

  ghost predicate LosesDuty(peers: Peers, toPrune: set<PeerId>) {
    exists p :: p in toPrune && p in peers && peers[p].hasFutureDuty
  }

  /**
    The documented rule "always maintain peers we need for a validator duty", exactly: some outcome gives up a peer with
    a duty if and only if, on the exact counts, such a peer comes next in some run that has only given up others.
  */
  lemma DutyMayBeLostIff(peers: Peers, config: Config)
    ensures (exists first, early, picks, toPrune :: PruneSpec(peers, config, first, early, picks, toPrune) && LosesDuty(peers, toPrune)) <==>
            (exists first, early, picks, s, p :: DutyIsNext(peers, config, first, early, picks, s, p))
  {
    hide PruneSpec, DutyIsNext;
    if first, early, picks, s, p :| DutyIsNext(peers, config, first, early, picks, s, p) {
      var all := DutyIsNextLoses(peers, config, first, early, picks, s, p);
    }
    if first, early, picks, toPrune :| PruneSpec(peers, config, first, early, picks, toPrune) && LosesDuty(peers, toPrune) {
      var n, s := LosesWhenNext(peers, config, first, early, picks, toPrune);
    }
  }

  /** Nobody with a duty is among them. */
  ghost predicate DutyFree(peers: Peers, picks: seq<PeerId>) {
    forall q :: q in picks && q in peers ==> !peers[q].hasFutureDuty
  }

  /** A run of stage three that gives up nobody with a duty, within the excess. */
  ghost predicate DutyFreeRun(peers: Peers, config: Config, first: set<PeerId>, early: set<PeerId>, picks: seq<PeerId>) {
    && EarlyOutcome(peers, config, first, early) && |early| + |picks| <= Excess(peers, config)
    && Greedy(peers, config, early, picks) && DutyFree(peers, picks)
  }

  /** Every outcome gives up a peer with a duty if and only if every run without one falls short with somebody still exposed. */
  lemma DutyMustBeLostIff(peers: Peers, config: Config)
    ensures (forall first, early, picks, toPrune :: PruneSpec(peers, config, first, early, picks, toPrune) ==> LosesDuty(peers, toPrune)) <==>
            (forall first, early, picks :: DutyFreeRun(peers, config, first, early, picks) ==>
               |early| + |picks| < Excess(peers, config) && exists p :: Exposed(peers, config, early + Elements(picks), p))
  {
    hide PruneSpec, DutyFreeRun, LosesDuty, Exposed, Excess, Elements;
    forall first, early, picks, toPrune | PruneSpec(peers, config, first, early, picks, toPrune)
      ensures LosesDuty(peers, toPrune) ||
              (DutyFreeRun(peers, config, first, early, picks) && toPrune == early + Elements(picks) &&
               (|early| + |picks| >= Excess(peers, config) || forall p :: !Exposed(peers, config, early + Elements(picks), p)))
    {
      KeptIsDutyFree(peers, config, first, early, picks, toPrune);
    }
    forall first, early, picks | DutyFreeRun(peers, config, first, early, picks)
      ensures (|early| + |picks| < Excess(peers, config) && exists p :: Exposed(peers, config, early + Elements(picks), p)) ||
              (PruneSpec(peers, config, first, early, picks, early + Elements(picks)) && !LosesDuty(peers, early + Elements(picks)))
    {
      DutyFreeIsKept(peers, config, first, early, picks);
    }
  }

  lemma KeptIsDutyFree(peers: Peers, config: Config, first: set<PeerId>, early: set<PeerId>, picks: seq<PeerId>, toPrune: set<PeerId>)
    requires PruneSpec(peers, config, first, early, picks, toPrune)
    ensures toPrune == early + Elements(picks)
    ensures LosesDuty(peers, toPrune) ||
            (DutyFreeRun(peers, config, first, early, picks) &&
             (|early| + |picks| >= Excess(peers, config) || forall p :: !Exposed(peers, config, early + Elements(picks), p)))
  {
    hide Kept, WereUnprotected, EarlySpec, Exposed, Greedy;
    GreedyIsDistinct(peers, config, early, picks);
    forall q | q in picks ensures q in toPrune {
      assert q in Elements(picks);
    }
  }

  lemma DutyFreeIsKept(peers: Peers, config: Config, first: set<PeerId>, early: set<PeerId>, picks: seq<PeerId>)
    requires DutyFreeRun(peers, config, first, early, picks)
    ensures (|early| + |picks| < Excess(peers, config) && exists p :: Exposed(peers, config, early + Elements(picks), p)) ||
            (PruneSpec(peers, config, first, early, picks, early + Elements(picks)) && !LosesDuty(peers, early + Elements(picks)))
  {
    hide PruneSpec, EarlyOutcome, Greedy, Exposed;
    if |early| + |picks| < Excess(peers, config) && exists p :: Exposed(peers, config, early + Elements(picks), p) {
      return;
    }
    GreedyMakesSpec(peers, config, first, early, picks);
    forall p | p in early ensures p in peers && !peers[p].hasFutureDuty {
      GivenUpWasExposed(peers, config, first, early, picks, early + Elements(picks), p);
    }
  }

  lemma DutyIsNextLoses(peers: Peers, config: Config, first: set<PeerId>, early: set<PeerId>, picks: seq<PeerId>, s: SubnetId, p: PeerId)
    returns (all: seq<PeerId>)
    requires DutyIsNext(peers, config, first, early, picks, s, p)
    ensures PruneSpec(peers, config, first, early, all, early + Elements(all)) && LosesDuty(peers, early + Elements(all))
  {
    hide EarlyOutcome, PruneSpec, Greedy, Pick;
    GreedySnoc(peers, config, early, picks, s, p);
    all := Completed(peers, config, first, early, picks + [p]);
    assert all[|picks|] == p;
    assert p in early + Elements(all);
  }

  /** The first pick with a duty, in an outcome that loses one. */
  lemma LosesWhenNext(peers: Peers, config: Config, first: set<PeerId>, early: set<PeerId>, picks: seq<PeerId>, toPrune: set<PeerId>)
    returns (n: nat, s: SubnetId)
    requires PruneSpec(peers, config, first, early, picks, toPrune) && LosesDuty(peers, toPrune)
    ensures n < |picks| && DutyIsNext(peers, config, first, early, picks[..n], s, picks[n])
  {
    var p :| p in toPrune && p in peers && peers[p].hasFutureDuty;
    GivenUpWasExposed(peers, config, first, early, picks, toPrune, p);
    hide Kept, WereUnprotected, Maximal, EarlySpec, Selection, Exposed, Pick, Greedy;
    assert p in picks;
    var i: nat :| i < |picks| && picks[i] == p;
    n := FirstDuty(peers, picks, i);
    GreedyPrefix(peers, config, early, picks, n);
    s :| Pick(peers, config, early + Elements(picks[..n]), s, picks[n]);
    PicksWithinExcess(peers, config, first, early, picks, toPrune);
  }

  lemma {:induction false} FirstDuty(peers: Peers, picks: seq<PeerId>, i: nat) returns (n: nat)
    requires i < |picks| && picks[i] in peers && peers[picks[i]].hasFutureDuty
    ensures n <= i && picks[n] in peers && peers[picks[n]].hasFutureDuty
    ensures DutyFree(peers, picks[..n])
    decreases i
  {
    if q :| q in picks[..i] && q in peers && peers[q].hasFutureDuty {
      var j: nat :| j < i && picks[j] == q;
      n := FirstDuty(peers, picks, j);
    } else {
      n := i;
    }
  }

  lemma {:induction false} GreedyPrefix(peers: Peers, config: Config, early: set<PeerId>, picks: seq<PeerId>, n: nat)
    requires Greedy(peers, config, early, picks) && n < |picks|
    ensures Greedy(peers, config, early, picks[..n]) && exists s :: Pick(peers, config, early + Elements(picks[..n]), s, picks[n])
    decreases |picks|
  {
    hide Pick;
    var init := picks[..|picks| - 1];
    if n < |init| {
      GreedyPrefix(peers, config, early, init, n);
      assert init[..n] == picks[..n];
    }
  }

  lemma PicksWithinExcess(peers: Peers, config: Config, first: set<PeerId>, early: set<PeerId>, picks: seq<PeerId>, toPrune: set<PeerId>)
    requires PruneSpec(peers, config, first, early, picks, toPrune) && picks != []
    ensures |early| + |picks| <= Excess(peers, config)
  {
    hide Kept, WereUnprotected, Maximal, EarlySpec;
    GreedyIsDistinct(peers, config, early, picks);
  }

  lemma {:induction false} GreedyIsDistinct(peers: Peers, config: Config, early: set<PeerId>, picks: seq<PeerId>)
    requires Greedy(peers, config, early, picks)
    ensures |early + Elements(picks)| == |early| + |picks|
    decreases |picks|
  {
    hide Pick, Exposed, RemovedBefore, Elements;
    if picks == [] {
      NoElements(early);
    } else {
      var init, last := picks[..|picks| - 1], picks[|picks| - 1];
      assert picks == init + [last];
      ElementsSnoc(early, init, last);
      GreedyIsDistinct(peers, config, early, init);
      var s :| Pick(peers, config, early + Elements(init), s, last);
      PickIsExposed(peers, config, early + Elements(init), s, last);
    }
  }

  /** Protection that the first two stages cannot take away: it can be read off before the call. */
  predicate LastinglyProtected(peers: Peers, config: Config, p: PeerId)
    requires p in peers
  {
    var info := Considered(peers, {});
    OutboundProtected(peers[p], config, |Outbound(peers)|, 0) || SamplingProtected(peers[p], config, info) || SyncProtected(peers[p], info)
  }

  lemma ProtectionLasts(peers: Peers, config: Config, early: set<PeerId>, p: PeerId)
    requires p in peers && LastinglyProtected(peers, config, p)
    ensures Protected(peers[p], config, Considered(peers, early), |Outbound(peers)|, |early * Outbound(peers)|)
  {
    var info, later := Considered(peers, {}), Considered(peers, early);
    if s :| s in peers[p].custodySubnets && s in config.samplingSubnets && |OnCustody(info, s)| <= MIN_SAMPLING_COLUMN_SUBNET_PEERS {
      FewerPeers(OnCustody(later, s), OnCustody(info, s));
    }
    if s :| s in peers[p].syncCommittees && |OnSync(info, s)| <= MIN_SYNC_COMMITTEE_PEERS {
      FewerPeers(OnSync(later, s), OnSync(info, s));
    }
  }

  /** A peer with a duty that is trusted, custodies nothing, or is lastingly protected before the call is always kept. */
  lemma DutyIsKept(peers: Peers, config: Config, first: set<PeerId>, early: set<PeerId>, picks: seq<PeerId>, toPrune: set<PeerId>, p: PeerId)
    requires PruneSpec(peers, config, first, early, picks, toPrune) && p in peers && peers[p].hasFutureDuty
    requires peers[p].isTrusted || peers[p].custodySubnets == {} || LastinglyProtected(peers, config, p)
    ensures p !in toPrune
  {
    hide PruneSpec, Protected, LastinglyProtected;
    if p in toPrune {
      GivenUpWasExposed(peers, config, first, early, picks, toPrune, p);
      if LastinglyProtected(peers, config, p) {
        ProtectionLasts(peers, config, early, p);
      }
      assert false;
    }
  }

  /** Two peers with a duty of which every outcome gives one up. */
  lemma DutyIsNotAlwaysKept(first: set<PeerId>, early: set<PeerId>, picks: seq<PeerId>, toPrune: set<PeerId>)
    requires PruneSpec(DutyPeers(), Config(1, 0, {}), first, early, picks, toPrune)
    ensures exists p :: p in toPrune && p in DutyPeers() && DutyPeers()[p].hasFutureDuty
  {
    hide PruneSpec, DutyPeers, Exposed;
    UnprotectedDuty();
    OnlyShortPrunesGoOn(DutyPeers(), Config(1, 0, {}), first, early, picks, toPrune);
    forall p | p in toPrune
      ensures p in DutyPeers() && p !in early
    {
      GivenUpWasExposed(DutyPeers(), Config(1, 0, {}), first, early, picks, toPrune, p);
    }
    assert early == {};
    StageThreeActsIffExposed(DutyPeers(), Config(1, 0, {}), first, early, picks, toPrune);
    var p :| p in toPrune;
  }

  /** So pruning these peers gives one of them up. */
  method GiveUpDuty() returns (toPrune: set<PeerId>)
    ensures exists p :: p in toPrune && p in DutyPeers() && DutyPeers()[p].hasFutureDuty
  {
    hide PruneSpec, DutyPeers, Outbound;
    ghost var first, early, picks;
    toPrune, first, early, picks := PruneExcessPeers(DutyPeers(), Config(1, 0, {}));
    DutyIsNotAlwaysKept(first, early, picks, toPrune);
  }

  lemma UnprotectedDuty()
    ensures Exposed(DutyPeers(), Config(1, 0, {}), {}, 0) && Excess(DutyPeers(), Config(1, 0, {})) == 1
    ensures forall p :: p in DutyPeers() ==> DutyPeers()[p].hasFutureDuty
  {
    assert DutyPeers().Keys == {0, 1} && 7 in DutyPeers()[0].custodySubnets;
  }

  function DutyPeers(): Peers {
    var p := PeerInfo(Real(0.0), false, true, true, false, true, {}, {}, {7});
    map[0 := p, 1 := p]
  }
}
