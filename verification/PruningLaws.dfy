/** What a prune means for scores, subnets and committees, in terms of the fields of the peers alone. */
module PruningLaws {
  import opened Common
  import opened Pruning

  /** The peers that may still be given up after the others: neither trusted nor selected. */
  function Remaining(peers: Peers, toPrune: set<PeerId>): set<PeerId> {
    set p | p in peers && !peers[p].isTrusted && p !in toPrune
  }

  // ----- Stages one and two -----

  /** An untrusted peer without a duty that has a negative score. */
  predicate Penalised(i: PeerInfo) {
    !i.isTrusted && !i.hasFutureDuty && i.score.Real? && i.score.value < 0.0
  }

  /** An untrusted peer without a duty that is on no long-lived subnet. */
  predicate Idle(i: PeerInfo) {
    !i.isTrusted && !i.hasFutureDuty && !i.hasLongLivedSubnet
  }

  /** Numbers in their order, and the score of a trusted peer above all. */
  predicate NoBetter(a: Score, b: Score) {
    match (a, b)
    case (Real(x), Real(y)) => x <= y
    case (Real(_), MaxScore) => true
    case (MaxScore, Real(_)) => false
    case (MaxScore, MaxScore) => true
  }

  lemma FirstArePenalised(peers: Peers, config: Config, first: set<PeerId>, early: set<PeerId>, p: PeerId)
    requires EarlySpec(peers, config, first, early) && p in early
    ensures first <= early <= peers.Keys && if p in first then Penalised(peers[p]) else Idle(peers[p])
  {}

  /**
    Whoever is given up has a negative score no better than that of a penalised survivor: unless the survivor is
    outbound, and then the outbound peers left by the first stage are no more than their target.
  */
  lemma WorstGoFirst(peers: Peers, config: Config, first: set<PeerId>, early: set<PeerId>, picks: seq<PeerId>, toPrune: set<PeerId>, p: PeerId, q: PeerId)
    requires PruneSpec(peers, config, first, early, picks, toPrune) && p in toPrune && q in peers && q !in toPrune && Penalised(peers[q])
    ensures p in peers
    ensures peers[q].isOutboundOnly ==>
              |Outbound(peers) - first| <= config.targetOutboundPeers ||
              (peers[p].score.Real? && peers[p].score.value <= peers[q].score.value)
    ensures !peers[q].isOutboundOnly ==> peers[p].score.Real? && peers[p].score.value <= peers[q].score.value < 0.0
  {
    hide Kept, WereUnprotected, Maximal, Greedy, PassSpec, Worse;
    LaterStagesNeedRoom(peers, config, first, early, picks, toPrune);
    WorstOfPass(peers, config, first, p, q);
  }

  lemma WorstOfPass(peers: Peers, config: Config, first: set<PeerId>, p: PeerId, q: PeerId)
    requires PassSpec(peers, config, NegativeScore, {}, first) && q in peers && q !in first && Penalised(peers[q])
    ensures p in first && (!peers[q].isOutboundOnly || |Outbound(peers) - first| > config.targetOutboundPeers) ==>
              p in peers && peers[p].score.Real? && peers[p].score.value <= peers[q].score.value
    ensures |first| < Excess(peers, config) ==> peers[q].isOutboundOnly && |Outbound(peers) - first| <= config.targetOutboundPeers
  {
    assert LeftOut(peers, NegativeScore, first, q);
    OutboundLeft(peers, first);
  }

  /** A stage selects only if those before it fell short of the excess. */
  lemma LaterStagesNeedRoom(peers: Peers, config: Config, first: set<PeerId>, early: set<PeerId>, picks: seq<PeerId>, toPrune: set<PeerId>)
    requires PruneSpec(peers, config, first, early, picks, toPrune)
    ensures first <= early <= toPrune
    ensures |first| >= Excess(peers, config) ==> early == first
    ensures |early| >= Excess(peers, config) ==> toPrune == early
  {
    hide Kept, WereUnprotected, Maximal, Greedy, Selection, PassedOver, StrictlyWorse, LeftOut;
  }

  lemma OutboundLeft(peers: Peers, gone: set<PeerId>)
    ensures |Outbound(peers) - gone| == |Outbound(peers)| - |gone * Outbound(peers)|
  {
    assert Outbound(peers) == (Outbound(peers) - gone) + gone * Outbound(peers);
  }

  /**
    While a peer on no long-lived subnet is left that is not outbound, whoever is given up was penalised, or is on none
    either and has a score no better.
  */
  lemma IdleGoNext(peers: Peers, config: Config, first: set<PeerId>, early: set<PeerId>, picks: seq<PeerId>, toPrune: set<PeerId>, p: PeerId, q: PeerId)
    requires PruneSpec(peers, config, first, early, picks, toPrune) && p in toPrune
    requires q in peers && q !in toPrune && Idle(peers[q]) && !peers[q].isOutboundOnly
    ensures p in peers && (Penalised(peers[p]) || (Idle(peers[p]) && NoBetter(peers[p].score, peers[q].score)))
  {
    hide Kept, WereUnprotected, Maximal, Greedy, Selection, PassSpec, NoBetter;
    LaterStagesNeedRoom(peers, config, first, early, picks, toPrune);
    if p in early {
      FirstArePenalised(peers, config, first, early, p);
    }
    if |first| < Excess(peers, config) {
      IdleOfPass(peers, config, first, early, p, q);
    }
  }

  lemma IdleOfPass(peers: Peers, config: Config, first: set<PeerId>, early: set<PeerId>, p: PeerId, q: PeerId)
    requires PassSpec(peers, config, NoLongLivedSubnet, first, early)
    requires q in peers && q !in early && Idle(peers[q]) && !peers[q].isOutboundOnly
    ensures |early| >= Excess(peers, config)
    ensures p in early - first ==> p in peers && NoBetter(peers[p].score, peers[q].score)
  {
    assert LeftOut(peers, NoLongLivedSubnet, early, q);
  }

  // ----- Stage three -----

  /** Of the exposed peers of its subnet, the next to go custodies the fewest subnets, and is not synced if one of these is not. */
  lemma FewestSubnetsGoFirst(peers: Peers, config: Config, gone: set<PeerId>, s: SubnetId, c: PeerId, q: PeerId)
    requires Pick(peers, config, gone, s, c)
    requires q in Remaining(peers, gone) && s in peers[q].custodySubnets && Exposed(peers, config, gone, q)
    ensures c in Remaining(peers, gone) && s in peers[c].custodySubnets
    ensures |peers[c].custodySubnets| <= |peers[q].custodySubnets|
    ensures |peers[c].custodySubnets| == |peers[q].custodySubnets| && !peers[q].isSyncedOrAdvanced ==> !peers[c].isSyncedOrAdvanced
  {
    hide Exposed;
    assert q in OnCustody(Considered(peers, gone), s);
  }

  function InCommittee(peers: Peers, left: set<PeerId>, s: SubnetId): set<PeerId> {
    set p | p in left && p in peers && s in peers[p].syncCommittees
  }

  function InCustody(peers: Peers, left: set<PeerId>, s: SubnetId): set<PeerId> {
    set p | p in left && p in peers && s in peers[p].custodySubnets
  }

  function Attesting(peers: Peers, left: set<PeerId>, s: SubnetId): set<PeerId> {
    set p | p in left && p in peers && s in peers[p].attestationSubnets
  }

  /** What keeps a peer, on the counts of those remaining. */
  ghost predicate Needed(peers: Peers, config: Config, toPrune: set<PeerId>, q: PeerId)
    requires q in peers
  {
    var left := Remaining(peers, toPrune);
    || (peers[q].isOutboundOnly && |Outbound(peers) - toPrune| <= config.targetOutboundPeers)
    || (exists s :: s in peers[q].syncCommittees && |InCommittee(peers, left, s)| <= 2)
    || (exists s :: s in peers[q].custodySubnets && s in config.samplingSubnets && |InCustody(peers, left, s)| <= 2)
    || (exists s :: s in peers[q].attestationSubnets && Scarcest(peers, left, s))
  }

  /** No attestation subnet with a remaining peer has fewer of them. */
  ghost predicate Scarcest(peers: Peers, left: set<PeerId>, s: SubnetId) {
    forall s' :: Attesting(peers, left, s') != {} ==> |Attesting(peers, left, s)| <= |Attesting(peers, left, s')|
  }

  lemma CountsOfRemaining(peers: Peers, toPrune: set<PeerId>, s: SubnetId)
    ensures OnSync(Considered(peers, toPrune), s) == InCommittee(peers, Remaining(peers, toPrune), s)
    ensures OnCustody(Considered(peers, toPrune), s) == InCustody(peers, Remaining(peers, toPrune), s)
    ensures OnAttestation(Considered(peers, toPrune), s) == Attesting(peers, Remaining(peers, toPrune), s)
    ensures s in Covered(Considered(peers, toPrune)) <==> Attesting(peers, Remaining(peers, toPrune), s) != {}
  {
    CoveredHasPeers(Considered(peers, toPrune), s);
  }

  /** Protection by the rules of the code is being needed in this sense. */
  lemma ProtectedIsNeeded(peers: Peers, config: Config, toPrune: set<PeerId>, q: PeerId)
    requires q in Remaining(peers, toPrune)
    ensures Protected(peers[q], config, Considered(peers, toPrune), |Outbound(peers)|, |toPrune * Outbound(peers)|) <==> Needed(peers, config, toPrune, q)
  {
    hide OnSync, OnCustody, OnAttestation, Covered, Considered, InCommittee, InCustody, Attesting, Outbound;
    var info, left := Considered(peers, toPrune), Remaining(peers, toPrune);
    OutboundLeft(peers, toPrune);
    forall s
      ensures OnSync(info, s) == InCommittee(peers, left, s) && OnCustody(info, s) == InCustody(peers, left, s)
      ensures OnAttestation(info, s) == Attesting(peers, left, s) && (s in Covered(info) <==> Attesting(peers, left, s) != {})
    {
      CountsOfRemaining(peers, toPrune, s);
    }
    forall s | s in peers[q].attestationSubnets
      ensures LeastDense(info, s) <==> Scarcest(peers, left, s)
    {
      LeastDenseIsScarcest(peers, toPrune, q, s);
    }
  }

  lemma LeastDenseIsScarcest(peers: Peers, toPrune: set<PeerId>, q: PeerId, s: SubnetId)
    requires q in Remaining(peers, toPrune) && s in peers[q].attestationSubnets
    ensures LeastDense(Considered(peers, toPrune), s) <==> Scarcest(peers, Remaining(peers, toPrune), s)
  {
    var info, left := Considered(peers, toPrune), Remaining(peers, toPrune);
    assert q in Attesting(peers, left, s);
    hide OnAttestation, Covered, Considered, Attesting, Remaining;
    forall s'
      ensures OnAttestation(info, s') == Attesting(peers, left, s') && (s' in Covered(info) <==> Attesting(peers, left, s') != {})
    {
      CountsOfRemaining(peers, toPrune, s');
    }
  }

  /**
    A prune that falls short of the excess had to: every survivor is trusted, or custodies no subnet, or is needed; and
    one without a duty that is not outbound has neither a negative score nor no long-lived subnet.
  */
  lemma ShortPruneIsJustified(peers: Peers, config: Config, first: set<PeerId>, early: set<PeerId>, picks: seq<PeerId>, toPrune: set<PeerId>, q: PeerId)
    requires PruneSpec(peers, config, first, early, picks, toPrune) && |toPrune| < |peers| - config.targetPeers
    requires q in peers && q !in toPrune && !peers[q].isTrusted
    ensures peers[q].custodySubnets == {} || Needed(peers, config, toPrune, q)
    ensures !peers[q].isOutboundOnly ==> !Penalised(peers[q]) && !Idle(peers[q])
  {
    hide Kept, WereUnprotected, Greedy, Needed, Protected;
    ProtectedIsNeeded(peers, config, toPrune, q);
    assert !Exposed(peers, config, toPrune, q);
    FewerPeers(early, toPrune);
    FewerPeers(first, early);
    assert Penalised(peers[q]) ==> LeftOut(peers, NegativeScore, first, q);
    assert Idle(peers[q]) ==> LeftOut(peers, NoLongLivedSubnet, early, q);
  }

  /** The third stage never takes the last two remaining peers of a sync committee or a sampling subnet, nor the last of an attestation subnet. */
  lemma FloorsAreKept(peers: Peers, config: Config, first: set<PeerId>, early: set<PeerId>, picks: seq<PeerId>, toPrune: set<PeerId>, s: SubnetId)
    requires PruneSpec(peers, config, first, early, picks, toPrune)
    ensures var before, after := Remaining(peers, early), Remaining(peers, toPrune);
            && |InCommittee(peers, after, s)| >= Min(|InCommittee(peers, before, s)|, 2)
            && (s in config.samplingSubnets ==> |InCustody(peers, after, s)| >= Min(|InCustody(peers, before, s)|, 2))
            && (Attesting(peers, before, s) != {} ==> Attesting(peers, after, s) != {})
  {
    hide EarlyOutcome, Selection, WereUnprotected, Maximal, Greedy, InCommittee, InCustody, Attesting;
    CountsOfRemaining(peers, early, s);
    CountsOfRemaining(peers, toPrune, s);
  }
}
