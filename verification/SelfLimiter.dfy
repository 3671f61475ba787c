/** The limiter of our own requests. */
module SelfLimiter {
  import opened Common
  import opened LimiterQueues
  import opened LimiterGate
  import RL = RateLimiter

  const MAX_CONCURRENT_REQUESTS: nat := 2
  /** 100 milliseconds, in nanoseconds. */
  const WAIT_TIME_DUE_TO_CONCURRENT_REQUESTS: nat := 100_000_000

  datatype Req = Req(id: nat, protocol: Protocol, tokens: RL.u64)

  datatype Ready = Ready(key: Key, req: Req)

  // ----- Active requests -----

  type ActiveRequests = map<PeerId, map<Protocol, nat>>

  function Count(active: ActiveRequests, k: Key): nat {
    if k.0 in active && k.1 in active[k.0] then active[k.0][k.1] else 0
  }

  /** Every stored count is one or two. */
  ghost predicate ActiveOk(active: ActiveRequests) {
    forall peer, p :: peer in active && p in active[peer] ==> 1 <= active[peer][p] <= MAX_CONCURRENT_REQUESTS
  }

  function Started(active: ActiveRequests, k: Key): (r: ActiveRequests)
    ensures forall j: Key :: Count(r, j) == Count(active, j) + if j == k then 1 else 0
    ensures ActiveOk(active) && Count(active, k) < MAX_CONCURRENT_REQUESTS ==> ActiveOk(r)
  {
    var ofPeer := if k.0 in active then active[k.0] else map[];
    active[k.0 := ofPeer[k.1 := Count(active, k) + 1]]
  }

  /** Two requests are active already, or the limiter asks for patience. */
  predicate MustWait(active: ActiveRequests, gate: Option<Gate>, now: nat, k: Key, req: Req) {
    Count(active, k) >= MAX_CONCURRENT_REQUESTS || (gate.Some? && gate.value.Decide(now, k, req.tokens).TooSoon?)
  }

  /** The time to wait: 100 milliseconds for one of two requests to end, and otherwise what the limiter asks for. */
  predicate IsWait(active: ActiveRequests, gate: Option<Gate>, now: nat, k: Key, req: Req, wait: nat) {
    if Count(active, k) >= 2 then wait == 100_000_000 else gate.Some? && gate.value.Decide(now, k, req.tokens) == RL.TooSoon(wait)
  }

  /** The limiter is asked only if fewer than two requests are active. */
  function GateAfter(active: ActiveRequests, gate: Option<Gate>, now: nat, k: Key, req: Req): Option<Gate> {
    if gate.Some? && Count(active, k) < MAX_CONCURRENT_REQUESTS then Some(gate.value.Admit(now, k, req.tokens)) else gate
  }

  // ----- Emitted and ready requests -----

  function ReadyFor(ready: seq<Ready>, k: Key): seq<Req> {
    if ready == [] then []
    else ReadyFor(ready[..|ready| - 1], k) + if ready[|ready| - 1].key == k then [ready[|ready| - 1].req] else []
  }

  function AllReady(k: Key, reqs: seq<Req>): seq<Ready> {
    seq(|reqs|, i requires 0 <= i < |reqs| => Ready(k, reqs[i]))
  }

  lemma ReadyForSnoc(ready: seq<Ready>, r: Ready, k: Key)
    ensures ReadyFor(ready + [r], k) == ReadyFor(ready, k) + if r.key == k then [r.req] else []
  {
    assert (ready + [r])[..|ready|] == ready;
  }

  /** The requests let through are those emitted and those ready, and these are in the order they were let through. */
  ghost predicate Balanced(sent: seq<Req>, ready: seq<Req>, emitted: seq<Req>) {
    multiset(sent) == multiset(emitted) + multiset(ready) && Subsequence(ready, sent)
  }

  lemma BalancedSnoc(sent: seq<Req>, ready: seq<Req>, emitted: seq<Req>, x: Req)
    requires Balanced(sent, ready, emitted)
    ensures Balanced(sent + [x], ready + [x], emitted) && Balanced(sent + [x], ready, emitted + [x])
  {
    SubsequenceSnoc(ready, sent, x);
  }

  lemma BalancedPop(sent: seq<Req>, ready: seq<Req>, emitted: seq<Req>, x: Req)
    requires Balanced(sent, ready + [x], emitted)
    ensures Balanced(sent, ready, emitted + [x])
  {
    SubsequenceInit(ready + [x], sent);
    assert (ready + [x])[..|ready|] == ready;
  }

  ghost predicate EmissionOf(resolved: map<Key, seq<Fate<Req>>>, ready: seq<Ready>, emitted: map<Key, seq<Req>>, k: Key) {
    Balanced(SentItems(Of(resolved, k)), ReadyFor(ready, k), Of(emitted, k))
  }

  ghost predicate Emission(resolved: map<Key, seq<Fate<Req>>>, ready: seq<Ready>, emitted: map<Key, seq<Req>>) {
    forall k: Key :: EmissionOf(resolved, ready, emitted, k)
  }

  function Emit(emitted: map<Key, seq<Req>>, k: Key, x: Req): map<Key, seq<Req>> {
    emitted[k := Of(emitted, k) + [x]]
  }

  lemma EmissionAtOnce(resolved: map<Key, seq<Fate<Req>>>, ready: seq<Ready>, emitted: map<Key, seq<Req>>, k: Key, x: Req)
    requires Emission(resolved, ready, emitted)
    ensures Emission(resolved[k := Of(resolved, k) + [Sent(x)]], ready, Emit(emitted, k, x))
  {
    hide SentItems, ReadyFor, Balanced;
    var resolved' := resolved[k := Of(resolved, k) + [Sent(x)]];
    SentItemsSnoc(Of(resolved, k), Sent(x));
    forall j: Key
      ensures EmissionOf(resolved', ready, Emit(emitted, k, x), j)
    {
      assert EmissionOf(resolved, ready, emitted, j);
      BalancedSnoc(SentItems(Of(resolved, j)), ReadyFor(ready, j), Of(emitted, j), x);
    }
  }

  lemma EmissionReady(resolved: map<Key, seq<Fate<Req>>>, ready: seq<Ready>, emitted: map<Key, seq<Req>>, k: Key, x: Req)
    requires Emission(resolved, ready, emitted)
    ensures Emission(resolved[k := Of(resolved, k) + [Sent(x)]], ready + [Ready(k, x)], emitted)
  {
    hide SentItems, ReadyFor, Balanced;
    var resolved' := resolved[k := Of(resolved, k) + [Sent(x)]];
    SentItemsSnoc(Of(resolved, k), Sent(x));
    forall j: Key
      ensures EmissionOf(resolved', ready + [Ready(k, x)], emitted, j)
    {
      assert EmissionOf(resolved, ready, emitted, j);
      ReadyForSnoc(ready, Ready(k, x), j);
      BalancedSnoc(SentItems(Of(resolved, j)), ReadyFor(ready, j), Of(emitted, j), x);
      assert ReadyFor(ready, j) + [] == ReadyFor(ready, j);
    }
  }

  lemma EmissionPop(resolved: map<Key, seq<Fate<Req>>>, ready: seq<Ready>, emitted: map<Key, seq<Req>>)
    requires Emission(resolved, ready, emitted) && ready != []
    ensures var r := ready[|ready| - 1];
            Emission(resolved, ready[..|ready| - 1], Emit(emitted, r.key, r.req))
  {
    hide SentItems, ReadyFor, Balanced;
    var r, init := ready[|ready| - 1], ready[..|ready| - 1];
    forall j: Key
      ensures EmissionOf(resolved, init, Emit(emitted, r.key, r.req), j)
    {
      assert EmissionOf(resolved, ready, emitted, j);
      assert ready == init + [r];
      ReadyForSnoc(init, r, j);
      assert ReadyFor(init, j) + [] == ReadyFor(init, j);
      if j == r.key {
        BalancedPop(SentItems(Of(resolved, j)), ReadyFor(init, j), Of(emitted, j), r.req);
      }
    }
  }

  lemma EmissionDropped(resolved: map<Key, seq<Fate<Req>>>, ready: seq<Ready>, emitted: map<Key, seq<Req>>, k: Key, xs: seq<Req>)
    requires Emission(resolved, ready, emitted)
    ensures Emission(resolved[k := Of(resolved, k) + DroppedAll(xs)], ready, emitted)
  {
    hide SentItems, ReadyFor, Balanced;
    DroppedAreNotSent(Of(resolved, k), xs);
    var resolved' := resolved[k := Of(resolved, k) + DroppedAll(xs)];
    forall j: Key
      ensures EmissionOf(resolved', ready, emitted, j)
    {
      assert EmissionOf(resolved, ready, emitted, j);
    }
  }

  /** Requests are queued under their own protocol. */
  ghost predicate Keyed(delayed: map<Key, seq<Req>>) {
    forall k, i :: k in delayed && 0 <= i < |delayed[k]| ==> delayed[k][i].protocol == k.1
  }

  /** The failed requests of one protocol, in order. */
  function FailedFor(failed: seq<Req>, p: Protocol): seq<Req> {
    if failed == [] then []
    else FailedFor(failed[..|failed| - 1], p) + if failed[|failed| - 1].protocol == p then [failed[|failed| - 1]] else []
  }

  lemma FailedForSnoc(failed: seq<Req>, x: Req, p: Protocol)
    ensures FailedFor(failed + [x], p) == FailedFor(failed, p) + if x.protocol == p then [x] else []
  {
    assert (failed + [x])[..|failed|] == failed;
  }

  lemma {:induction false} FailedForMore(failed: seq<Req>, more: seq<Req>, p: Protocol, q: Protocol)
    requires forall i :: 0 <= i < |more| ==> more[i].protocol == q
    ensures FailedFor(failed + more, p) == FailedFor(failed, p) + if p == q then more else []
    decreases |more|
  {
    hide FailedFor;
    if more == [] {
      assert failed + more == failed;
    } else {
      var init, last := more[..|more| - 1], more[|more| - 1];
      FailedForMore(failed, init, p, q);
      FailedForSnoc(failed + init, last, p);
      assert failed + more == failed + init + [last] && more == init + [last];
    }
  }

  /** The queues of the peer that are left, those of others, and what failed so far. */
  ghost predicate Failing(before: map<Key, seq<Req>>, left: map<Key, seq<Req>>, peer: PeerId, todo: set<Key>, failed: seq<Req>) {
    && (forall k :: k in todo <==> k in left && k.0 == peer)
    && (forall k :: k in left ==> k in before && left[k] == before[k])
    && (forall k :: k in before && k.0 != peer ==> k in left)
    && (forall p :: FailedFor(failed, p) == if (peer, p) in left then [] else Of(before, (peer, p)))
  }

  lemma FailingStarts(before: map<Key, seq<Req>>, peer: PeerId)
    ensures Failing(before, before, peer, set k | k in before && k.0 == peer, [])
  {}

  lemma FailingNext(before: map<Key, seq<Req>>, left: map<Key, seq<Req>>, peer: PeerId, todo: set<Key>, failed: seq<Req>, k: Key)
    requires Keyed(before) && Failing(before, left, peer, todo, failed) && k in todo
    ensures k in left && Failing(before, left - {k}, peer, todo - {k}, failed + left[k])
  {
    hide FailedFor;
    forall p ensures FailedFor(failed + left[k], p) == FailedFor(failed, p) + if p == k.1 then left[k] else [] {
      FailedForMore(failed, left[k], p, k.1);
    }
    assert k == (peer, k.1);
  }

  lemma FailingEnds(before: map<Key, seq<Req>>, left: map<Key, seq<Req>>, peer: PeerId, failed: seq<Req>)
    requires Keyed(before) && Failing(before, left, peer, {}, failed)
    ensures Keyed(left) && left == (map k | k in before && k.0 != peer :: before[k])
    ensures forall p :: FailedFor(failed, p) == Of(before, (peer, p))
  {
    hide FailedFor;
    assert forall p :: (peer, p) !in left;
  }

  /** The dropped queues are those of the peer that are gone. */
  ghost predicate Dropping(before: map<Key, seq<Req>>, left: map<Key, seq<Req>>, r: map<Key, seq<Fate<Req>>>, r': map<Key, seq<Fate<Req>>>, peer: PeerId) {
    forall k: Key :: Of(r', k) == Of(r, k) + if k.0 == peer && k !in left then DroppedAll(Of(before, k)) else []
  }

  lemma DroppingStarts(before: map<Key, seq<Req>>, r: map<Key, seq<Fate<Req>>>, peer: PeerId)
    ensures Dropping(before, before, r, r, peer)
  {
    assert forall k: Key :: Of(r, k) + [] == Of(r, k);
    assert DroppedAll<Req>([]) == [];
  }

  lemma DroppingNext(before: map<Key, seq<Req>>, left: map<Key, seq<Req>>, r: map<Key, seq<Fate<Req>>>, r': map<Key, seq<Fate<Req>>>,
                     peer: PeerId, todo: set<Key>, failed: seq<Req>, k: Key)
    requires Failing(before, left, peer, todo, failed) && Dropping(before, left, r, r', peer) && k in todo
    ensures k in left && Dropping(before, left - {k}, r, r'[k := Of(r', k) + DroppedAll(left[k])], peer)
  {
    hide DroppedAll, FailedFor;
    assert Of(r, k) + [] == Of(r, k);
  }

  lemma DroppingEnds(before: map<Key, seq<Req>>, left: map<Key, seq<Req>>, r: map<Key, seq<Fate<Req>>>, r': map<Key, seq<Fate<Req>>>, peer: PeerId)
    requires Dropping(before, left, r, r', peer) && left == (map k | k in before && k.0 != peer :: before[k])
    ensures forall k: Key :: Of(r', k) == Of(r, k) + if k.0 == peer then DroppedAll(Of(before, k)) else []
  {
    hide DroppedAll;
  }

  /** The first `n` requests of one queue are gone, and every other queue is as before. */
  ghost predicate Freed(before: map<Key, seq<Req>>, after: map<Key, seq<Req>>, k: Key, n: nat) {
    n <= |Of(before, k)| && Of(after, k) == Of(before, k)[n..] && after - {k} == before - {k}
  }

  /** Who still waits in a queue whose timer ran out has to. */
  ghost predicate HeadMustWait(delayed: map<Key, seq<Req>>, k: Key, active: ActiveRequests, gate: Option<Gate>, now: nat) {
    k in delayed ==> delayed[k] != [] && MustWait(active, gate, now, k, delayed[k][0])
  }

  /** The head has to wait, and one timer is set for as long as it has to. */
  ghost predicate Rearmed(timers: seq<Timer>, timers': seq<Timer>, active: ActiveRequests, gate: Option<Gate>, now: nat, k: Key, head: Req) {
    MustWait(active, gate, now, k, head) && exists wait :: IsWait(active, gate, now, k, head, wait) && timers' == timers + [Timer(k, now + wait)]
  }

  lemma StillMustWait(delayed: map<Key, seq<Req>>, k: Key, active: ActiveRequests, gate: Gate, now: nat)
    requires HeadMustWait(delayed, k, active, Some(gate), now)
    ensures HeadMustWait(delayed, k, active, Some(gate.Prune(now)), now)
  {
    hide Gate.Decide, Gate.Prune;
    if k in delayed && gate.Decide(now, k, delayed[k][0].tokens).TooSoon? {
      RefusedAllTheSame(gate, now, k, delayed[k][0].tokens, k, 0);
    }
  }

  // ----- Why a key waits -----

  /** When the timer of a waiting key was set, for how long, how its limiter was then, and whether two requests were active. */
  datatype Arming = Arming(at: nat, wait: nat, gate: Option<Gate>, busy: bool)

  ghost predicate GateSince(before: Option<Gate>, after: Option<Gate>, k: Key, clock: nat) {
    before.Some? == after.Some? && (before.Some? ==> Since(before.value, after.value, k, clock))
  }

  /** The timer runs, it was set for the wait of the head, and nothing of the key was let through since. */
  ghost predicate ArmedOk(a: Arming, k: Key, head: Req, timers: seq<Timer>, gate: Option<Gate>, clock: nat) {
    && a.at <= clock && Timer(k, a.at + a.wait) in timers && GateSince(a.gate, gate, k, clock)
    && if a.busy then a.wait == 100_000_000 else a.gate.Some? && a.gate.value.Decide(a.at, k, head.tokens) == RL.TooSoon(a.wait)
  }

  /** Of every waiting key, `skip` aside. */
  ghost predicate AllArmed(arms: map<Key, Arming>, delayed: map<Key, seq<Req>>, timers: seq<Timer>, gate: Option<Gate>, clock: nat, skip: Option<Key>) {
    forall k :: k in delayed && skip != Some(k) ==> k in arms && delayed[k] != [] && ArmedOk(arms[k], k, delayed[k][0], timers, gate, clock)
  }

  /** The heads and the timers of waiting keys stay, and nothing of them is let through. */
  ghost predicate ArmsStay(delayed: map<Key, seq<Req>>, delayed': map<Key, seq<Req>>, timers: seq<Timer>, timers': seq<Timer>,
                           gate: Option<Gate>, gate': Option<Gate>, now: nat, skip: Option<Key>) {
    && (forall k :: k in delayed' && skip != Some(k) ==> k in delayed && delayed[k] != [] && delayed[k][..1] <= delayed'[k])
    && (forall t :: t in timers && skip != Some(t.key) ==> t in timers')
    && (forall k: Key :: skip != Some(k) ==> GateSince(gate, gate', k, now))
  }

  lemma StillArmed(arms: map<Key, Arming>, delayed: map<Key, seq<Req>>, delayed': map<Key, seq<Req>>, timers: seq<Timer>, timers': seq<Timer>,
                   gate: Option<Gate>, gate': Option<Gate>, clock: nat, now: nat, skip: Option<Key>, skip': Option<Key>)
    requires AllArmed(arms, delayed, timers, gate, clock, skip) && ArmsStay(delayed, delayed', timers, timers', gate, gate', now, skip')
    requires clock <= now && (skip.Some? ==> skip' == skip || skip.value !in delayed')
    ensures AllArmed(arms, delayed', timers', gate', now, skip')
  {
    hide Gate.Decide, Since;
    forall k | k in delayed' && skip' != Some(k)
      ensures k in arms && delayed'[k] != [] && ArmedOk(arms[k], k, delayed'[k][0], timers', gate', now)
    {
      assert k in delayed && ArmedOk(arms[k], k, delayed[k][0], timers, gate, clock) && GateSince(gate, gate', k, now);
      assert delayed[k][..1][0] == delayed'[k][0];
      if gate.Some? {
        SinceTwice(arms[k].gate.value, gate.value, gate'.value, k, clock, now);
      }
    }
  }

  lemma SameGate(gate: Option<Gate>, now: nat)
    ensures forall k: Key :: GateSince(gate, gate, k, now)
  {}

  lemma AskedGate(active: ActiveRequests, gate: Option<Gate>, now: nat, k: Key, req: Req)
    ensures forall j: Key :: j != k ==> GateSince(gate, GateAfter(active, gate, now, k, req), j, now)
  {
    hide Gate.Decide, Gate.Admit, Since;
    SameGate(gate, now);
    if gate.Some? {
      forall j: Key | j != k ensures Since(gate.value, gate.value.Admit(now, k, req.tokens), j, now) {
        SinceAdmit(gate.value, now, k, req.tokens, j);
      }
    }
  }

  lemma PrunedGate(gate: Gate, now: nat)
    ensures forall k: Key :: GateSince(Some(gate), Some(gate.Prune(now)), k, now)
  {
    hide Gate.Prune, Since;
    forall k: Key ensures Since(gate, gate.Prune(now), k, now) {
      SincePrune(gate, now, k);
    }
  }

  /** A timer is set for the head of `k`. */
  lemma NewlyArmed(arms: map<Key, Arming>, delayed: map<Key, seq<Req>>, timers: seq<Timer>, active: ActiveRequests, gate: Option<Gate>,
                   now: nat, k: Key, wait: nat)
    requires AllArmed(arms, delayed, timers, gate, now, Some(k)) && Of(delayed, k) != []
    requires IsWait(active, gate, now, k, delayed[k][0], wait)
    ensures AllArmed(arms[k := Arming(now, wait, gate, Count(active, k) >= 2)], delayed, timers + [Timer(k, now + wait)], gate, now, None)
  {
    hide Gate.Decide;
    SameGate(gate, now);
    assert Timer(k, now + wait) in timers + [Timer(k, now + wait)];
  }

  /**
    Nothing of a waiting key is let through before its timer runs out. So whether its head has to wait at any later
    instant is settled: two requests are active then, or the limiter asked for a longer wait when the timer was set.
  */
  lemma HeadWaitsIff(arms: map<Key, Arming>, delayed: map<Key, seq<Req>>, timers: seq<Timer>, active: ActiveRequests, gate: Option<Gate>,
                     clock: nat, k: Key, u: nat)
    requires AllArmed(arms, delayed, timers, gate, clock, None) && k in delayed && clock <= u <= RL.U64_MAX
    ensures k in arms && delayed[k] != [] && Timer(k, arms[k].at + arms[k].wait) in timers
    ensures MustWait(active, gate, u, k, delayed[k][0]) <==>
            || Count(active, k) >= 2
            || (arms[k].gate.Some? && match arms[k].gate.value.Decide(arms[k].at, k, delayed[k][0].tokens)
                                      case TooSoon(w) => u < arms[k].at + w
                                      case _ => false)
  {
    hide RL.Decide;
    var a, head := arms[k], delayed[k][0];
    if gate.Some? {
      var p := gate.value.params(k.1);
      RL.LaterAnswer(p, a.gate.value.TatsOf(k.1), gate.value.TatsOf(k.1), k.0, head.tokens, a.at, clock, u);
    }
  }

  /**
    From the deadline of the timer of a waiting key on, with fewer than two requests active, its head need not wait:
    unless two were active when the timer was set, and the limiter would have asked for more than the time since.
  */
  lemma AtTheDeadline(arms: map<Key, Arming>, delayed: map<Key, seq<Req>>, timers: seq<Timer>, active: ActiveRequests, gate: Option<Gate>,
                      clock: nat, k: Key, u: nat)
    requires AllArmed(arms, delayed, timers, gate, clock, None) && k in delayed && clock <= u <= RL.U64_MAX
    requires k in arms && arms[k].at + arms[k].wait <= u && Count(active, k) < 2
    ensures delayed[k] != []
    ensures !arms[k].busy ==> !MustWait(active, gate, u, k, delayed[k][0])
    ensures arms[k].busy ==> (MustWait(active, gate, u, k, delayed[k][0]) <==>
              arms[k].gate.Some? && exists w :: arms[k].gate.value.Decide(arms[k].at, k, delayed[k][0].tokens) == RL.TooSoon(w) && u < arms[k].at + w)
  {
    hide MustWait, Gate.Decide;
    HeadWaitsIff(arms, delayed, timers, active, gate, clock, k, u);
    assert ArmedOk(arms[k], k, delayed[k][0], timers, gate, clock);
  }

  /** One token every ten seconds, just spent by peer 0. */
  function SpentGate(): Gate {
    Gate(_ => RL.Params(10_000_000_000, 10_000_000_000), map[Ping := map[0 := 10_000_000_000]])
  }

  /** A timer set while two requests were active can run out too early: the head waits again, though no request is active. */
  lemma BusyHeadWaitsAgain()
    ensures var k, head := (0, Ping), Req(0, Ping, 1);
            var arms, delayed := map[k := Arming(0, 100_000_000, Some(SpentGate()), true)], map[k := [head]];
            && AllArmed(arms, delayed, [Timer(k, 100_000_000)], Some(SpentGate()), 0, None)
            && MustWait(map[], Some(SpentGate()), 100_000_000, k, head)
  {
    assert Timer((0, Ping), 100_000_000) in [Timer((0, Ping), 100_000_000)];
  }

  /** A request of `k` comes: it joins the queue, or the limiter is asked. */
  lemma ArmsAsked(arms: map<Key, Arming>, delayed: map<Key, seq<Req>>, timers: seq<Timer>, active: ActiveRequests, gate: Option<Gate>,
                  clock: nat, now: nat, k: Key, req: Req)
    requires AllArmed(arms, delayed, timers, gate, clock, None) && clock <= now
    ensures k in delayed ==> AllArmed(arms, delayed[k := delayed[k] + [req]], timers, gate, now, None)
    ensures k !in delayed ==> AllArmed(arms, delayed, timers, GateAfter(active, gate, now, k, req), now, None)
  {
    hide ArmedOk, GateSince, GateAfter;
    SameGate(gate, now);
    if k in delayed {
      StillArmed(arms, delayed, delayed[k := delayed[k] + [req]], timers, timers, gate, gate, clock, now, None, None);
    } else {
      AskedGate(active, gate, now, k, req);
      StillArmed(arms, delayed, delayed, timers, timers, gate, GateAfter(active, gate, now, k, req), clock, now, None, Some(k));
    }
  }

  /** The first request of `k` is delayed. */
  lemma ArmsDelayed(arms: map<Key, Arming>, delayed: map<Key, seq<Req>>, timers: seq<Timer>, active: ActiveRequests, gate: Option<Gate>,
                    now: nat, k: Key, req: Req, wait: nat)
    requires AllArmed(arms, delayed, timers, gate, now, None) && IsWait(active, gate, now, k, req, wait)
    ensures AllArmed(arms[k := Arming(now, wait, gate, Count(active, k) >= 2)], delayed[k := [req]], timers + [Timer(k, now + wait)], gate, now, None)
  {
    hide IsWait;
    NewlyArmed(arms, delayed[k := [req]], timers, active, gate, now, k, wait);
  }

  /** The head of `k` is asked about. */
  lemma ArmsHeadAsked(arms: map<Key, Arming>, delayed: map<Key, seq<Req>>, timers: seq<Timer>, active: ActiveRequests, gate: Option<Gate>,
                      clock: nat, now: nat, k: Key, req: Req)
    requires AllArmed(arms, delayed, timers, gate, clock, Some(k)) && clock <= now
    ensures AllArmed(arms, delayed, timers, GateAfter(active, gate, now, k, req), now, Some(k))
  {
    hide ArmedOk, GateSince, GateAfter;
    AskedGate(active, gate, now, k, req);
    StillArmed(arms, delayed, delayed, timers, timers, gate, GateAfter(active, gate, now, k, req), clock, now, Some(k), Some(k));
  }

  lemma ArmsRemoved(arms: map<Key, Arming>, delayed: map<Key, seq<Req>>, timers: seq<Timer>, gate: Option<Gate>, clock: nat, k: Key)
    requires AllArmed(arms, delayed, timers, gate, clock, Some(k))
    ensures AllArmed(arms, delayed - {k}, timers, gate, clock, None)
    ensures k !in delayed ==> AllArmed(arms, delayed, timers, gate, clock, None)
  {
    hide ArmedOk;
  }

  lemma ArmsExpired(arms: map<Key, Arming>, delayed: map<Key, seq<Req>>, timers: seq<Timer>, gate: Option<Gate>, clock: nat, i: nat)
    requires AllArmed(arms, delayed, timers, gate, clock, None) && i < |timers|
    ensures AllArmed(arms, delayed, Without(timers, i), gate, clock, Some(timers[i].key))
  {
    hide ArmedOk, GateSince;
    SameGate(gate, clock);
    var k := timers[i].key;
    forall t | t in timers && t.key != k ensures t in Without(timers, i) {
      var j :| 0 <= j < |timers| && timers[j] == t;
      assert Without(timers, i)[if j < i then j else j - 1] == t;
    }
    StillArmed(arms, delayed, delayed, timers, Without(timers, i), gate, gate, clock, clock, None, Some(k));
  }

  lemma ArmsPruned(arms: map<Key, Arming>, delayed: map<Key, seq<Req>>, timers: seq<Timer>, gate: Gate, clock: nat, now: nat)
    requires AllArmed(arms, delayed, timers, Some(gate), clock, None) && clock <= now
    ensures AllArmed(arms, delayed, timers, Some(gate.Prune(now)), now, None)
  {
    hide ArmedOk, GateSince, Gate.Prune;
    PrunedGate(gate, now);
    StillArmed(arms, delayed, delayed, timers, timers, Some(gate), Some(gate.Prune(now)), clock, now, None, None);
  }

  class SelfRateLimiter {
    var activeRequests: ActiveRequests
    var delayedRequests: map<Key, seq<Req>>
    var nextPeerRequest: seq<Timer>
    var gate: Option<Gate>
    var readyRequests: seq<Ready>

    // History: what was submitted, what became of it, and what was emitted.
    ghost var submitted: map<Key, seq<Req>>
    ghost var resolved: map<Key, seq<Fate<Req>>>
    ghost var emitted: map<Key, seq<Req>>
    // History: why each key waits, and the instant of the last call that reads the clock.
    ghost var arms: map<Key, Arming>
    ghost var clock: nat

    ghost function Queue(): Queues<Req>
      reads this
    {
      Queues(delayedRequests, nextPeerRequest, submitted, resolved)
    }

    ghost predicate ValidFor(skip: Option<Key>)
      reads this
    {
      && Queue().Valid(skip) && Emission(resolved, readyRequests, emitted) && ActiveOk(activeRequests) && Keyed(delayedRequests)
      && AllArmed(arms, delayedRequests, nextPeerRequest, gate, clock, skip)
    }

    ghost predicate Valid()
      reads this
    {
      ValidFor(None)
    }

    constructor (gate: Option<Gate>)
      ensures Valid() && submitted == map[] && emitted == map[] && clock == 0
    {
      activeRequests, delayedRequests, nextPeerRequest, this.gate, readyRequests := map[], map[], [], gate, [];
      submitted, resolved, emitted, arms, clock := map[], map[], map[], map[], 0;
    }

    /** Lets a request through, or gives the time to wait: for one of two active requests to end, or for the limiter. */
    method TrySendRequest(now: nat, peer: PeerId, req: Req) returns (wait: Option<nat>)
      requires ActiveOk(activeRequests)
      modifies this`activeRequests, this`gate
      ensures ActiveOk(activeRequests)
      ensures wait.None? ==> Count(old(activeRequests), (peer, req.protocol)) < MAX_CONCURRENT_REQUESTS &&
                             activeRequests == Started(old(activeRequests), (peer, req.protocol))
      ensures wait.Some? ==> activeRequests == old(activeRequests) && wait.value > 0
      ensures wait.Some? ==> && IsWait(old(activeRequests), old(gate), now, (peer, req.protocol), req, wait.value)
                             && IsWait(activeRequests, gate, now, (peer, req.protocol), req, wait.value)
      ensures wait.Some? <==> MustWait(old(activeRequests), old(gate), now, (peer, req.protocol), req)
      ensures wait.Some? ==> MustWait(activeRequests, gate, now, (peer, req.protocol), req)
      ensures gate == GateAfter(old(activeRequests), old(gate), now, (peer, req.protocol), req)
    {
      hide Gate.Decide, Gate.Admit;
      var k := (peer, req.protocol);
      if gate.Some? && gate.value.Decide(now, k, req.tokens).TooSoon? {
        RefusedAgain(gate.value, now, k, req.tokens);
      }
      if Count(activeRequests, k) >= MAX_CONCURRENT_REQUESTS {
        return Some(WAIT_TIME_DUE_TO_CONCURRENT_REQUESTS);
      }
      if gate.Some? {
        var answer := gate.value.Decide(now, k, req.tokens);
        gate := Some(gate.value.Admit(now, k, req.tokens));
        if answer.TooSoon? {
          return Some(answer.wait);
        }
      }
      activeRequests := Started(activeRequests, k);
      wait := None;
    }

    /** Submits a request: it is emitted at once, or waits behind those of its key. */
    method Allows(now: nat, peer: PeerId, req: Req) returns (sent: bool)
      requires Valid() && clock <= now
      modifies this
      ensures Valid() && readyRequests == old(readyRequests) && clock == now
      ensures var k := (peer, req.protocol);
              && submitted == old(submitted)[k := Of(old(submitted), k) + [req]]
              && emitted == (if sent then Emit(old(emitted), k, req) else old(emitted))
              && (sent <==> k !in old(delayedRequests) && !MustWait(old(activeRequests), old(gate), now, k, req))
              && delayedRequests == (if sent then old(delayedRequests) else old(delayedRequests)[k := Of(old(delayedRequests), k) + [req]])
              && activeRequests == (if sent then Started(old(activeRequests), k) else old(activeRequests))
              && gate == (if k in old(delayedRequests) then old(gate) else GateAfter(old(activeRequests), old(gate), now, k, req))
              && (if sent || k in old(delayedRequests) then nextPeerRequest == old(nextPeerRequest)
                  else exists wait :: IsWait(old(activeRequests), old(gate), now, k, req, wait) && nextPeerRequest == old(nextPeerRequest) + [Timer(k, now + wait)])
      ensures Sends(old(resolved), resolved)
    {
      hide Queues.Valid, Emission, ActiveOk, Started, MustWait, Sends, GateAfter, IsWait, AllArmed, Emit;
      var k := (peer, req.protocol);
      SendsSame(resolved);
      ArmsAsked(arms, delayedRequests, nextPeerRequest, activeRequests, gate, clock, now, k, req);
      clock := now;
      if k in delayedRequests {
        Queue().JoinValid(k, req);
        delayedRequests := delayedRequests[k := delayedRequests[k] + [req]];
        submitted := submitted[k := Of(submitted, k) + [req]];
        return false;
      }
      var wait := TrySendRequest(now, peer, req);
      if wait.Some? {
        Delay(now, k, req, wait.value);
        sent := false;
      } else {
        Pass(k, req);
        sent := true;
      }
    }

    /** The first request of a key that has to wait. */
    method Delay(now: nat, k: Key, req: Req, wait: nat)
      requires Valid() && clock == now && k !in delayedRequests && req.protocol == k.1 && IsWait(activeRequests, gate, now, k, req, wait)
      modifies this`delayedRequests, this`nextPeerRequest, this`submitted, this`arms
      ensures Valid() && submitted == old(submitted)[k := Of(old(submitted), k) + [req]]
      ensures delayedRequests == old(delayedRequests)[k := Of(old(delayedRequests), k) + [req]]
      ensures nextPeerRequest == old(nextPeerRequest) + [Timer(k, now + wait)]
    {
      hide Queues.Valid, Emission, ActiveOk, IsWait, AllArmed;
      Queue().DelayValid(k, req, now + wait);
      assert Of(delayedRequests, k) + [req] == [req];
      ArmsDelayed(arms, delayedRequests, nextPeerRequest, activeRequests, gate, now, k, req, wait);
      arms := arms[k := Arming(now, wait, gate, Count(activeRequests, k) >= 2)];
      nextPeerRequest := nextPeerRequest + [Timer(k, now + wait)];
      delayedRequests := delayedRequests[k := [req]];
      submitted := submitted[k := Of(submitted, k) + [req]];
    }

    /** A request that is emitted at once. */
    ghost method Pass(k: Key, req: Req)
      requires Valid() && k !in delayedRequests
      modifies this`resolved, this`emitted, this`submitted
      ensures Valid() && submitted == old(submitted)[k := Of(old(submitted), k) + [req]] && emitted == Emit(old(emitted), k, req)
      ensures Sends(old(resolved), resolved)
    {
      hide Queues.Valid, Emission, ActiveOk, Sends, AllArmed;
      Queue().PassValid(k, req, None);
      EmissionAtOnce(resolved, readyRequests, emitted, k, req);
      SendsOne(resolved, k, req);
      resolved := resolved[k := Of(resolved, k) + [Sent(req)]];
      emitted := Emit(emitted, k, req);
      submitted := submitted[k := Of(submitted, k) + [req]];
    }

    /** Takes the head of a queue that was let through. */
    method ReleaseHead(k: Key)
      requires ValidFor(Some(k)) && Of(delayedRequests, k) != []
      modifies this`delayedRequests, this`resolved, this`readyRequests
      ensures ValidFor(Some(k))
      ensures readyRequests == old(readyRequests) + [Ready(k, old(delayedRequests)[k][0])]
      ensures delayedRequests == old(delayedRequests)[k := old(delayedRequests)[k][1..]]
      ensures Sends(old(resolved), resolved)
    {
      hide Queues.Valid, Emission, Sends, ActiveOk, ArmedOk;
      var req := delayedRequests[k][0];
      SendsOne(resolved, k, req);
      Queue().ReleaseValid(k);
      EmissionReady(resolved, readyRequests, emitted, k, req);
      resolved := resolved[k := Of(resolved, k) + [Sent(req)]];
      readyRequests := readyRequests + [Ready(k, req)];
      delayedRequests := delayedRequests[k := delayedRequests[k][1..]];
    }

    /** Lets the head of a queue become ready, unless it has to wait. */
    method SendHead(now: nat, k: Key) returns (wait: Option<nat>)
      requires ValidFor(Some(k)) && Of(delayedRequests, k) != [] && clock <= now
      modifies this`activeRequests, this`gate, this`clock, this`delayedRequests, this`resolved, this`readyRequests
      ensures ValidFor(Some(k)) && clock == now && Sends(old(resolved), resolved)
      ensures var head := old(delayedRequests)[k][0];
              && (wait.Some? <==> MustWait(old(activeRequests), old(gate), now, k, head))
              && (wait.Some? ==> && delayedRequests == old(delayedRequests) && readyRequests == old(readyRequests) && wait.value > 0
                                 && IsWait(activeRequests, gate, now, k, head, wait.value) && MustWait(activeRequests, gate, now, k, head))
              && (wait.None? ==> && delayedRequests == old(delayedRequests)[k := old(delayedRequests)[k][1..]]
                                 && readyRequests == old(readyRequests) + [Ready(k, head)])
    {
      hide Queues.Valid, Emission, ActiveOk, Started, MustWait, Sends, GateAfter, IsWait, AllArmed;
      SendsSame(resolved);
      var req := delayedRequests[k][0];
      ArmsHeadAsked(arms, delayedRequests, nextPeerRequest, activeRequests, gate, clock, now, k, req);
      clock := now;
      wait := TrySendRequest(now, k.0, req);
      if wait.None? {
        ReleaseHead(k);
      }
    }

    /** A timer of a key ran out: its requests become ready, in order, until one has to wait again. */
    method NextPeerRequestReady(now: nat, k: Key) returns (ghost n: nat)
      requires ValidFor(Some(k)) && clock <= now
      modifies this`activeRequests, this`gate, this`delayedRequests, this`resolved, this`readyRequests, this`nextPeerRequest, this`arms, this`clock
      ensures Valid() && clock <= now && n <= |Of(old(delayedRequests), k)| && readyRequests == old(readyRequests) + AllReady(k, Of(old(delayedRequests), k)[..n])
      ensures Of(delayedRequests, k) == Of(old(delayedRequests), k)[n..] && delayedRequests - {k} == old(delayedRequests) - {k}
      ensures Due(nextPeerRequest, now) == Due(old(nextPeerRequest), now)
      ensures if k in delayedRequests then delayedRequests[k] != [] && Rearmed(old(nextPeerRequest), nextPeerRequest, activeRequests, gate, now, k, delayedRequests[k][0])
              else nextPeerRequest == old(nextPeerRequest)
      ensures n == 0 && k in old(delayedRequests) && old(delayedRequests)[k] != [] ==> MustWait(old(activeRequests), old(gate), now, k, old(delayedRequests)[k][0])
      ensures Sends(old(resolved), resolved)
    {
      hide Queues.Valid, Emission, ActiveOk, Started, MustWait, Due, Sends, IsWait, AllArmed, Rearmed;
      n := 0;
      SendsSame(resolved);
      if k !in delayedRequests {
        ArmsRemoved(arms, delayedRequests, nextPeerRequest, gate, clock, k);
        Queue().StaleValid(k);
        return;
      }
      ghost var waiting := delayedRequests[k];
      while delayedRequests[k] != []
        invariant k in delayedRequests && ValidFor(Some(k)) && nextPeerRequest == old(nextPeerRequest)
        invariant n <= |waiting| && delayedRequests[k] == waiting[n..] && delayedRequests - {k} == old(delayedRequests) - {k}
        invariant readyRequests == old(readyRequests) + AllReady(k, waiting[..n]) && Sends(old(resolved), resolved)
        invariant clock <= now && (n == 0 ==> activeRequests == old(activeRequests) && gate == old(gate))
        decreases |delayedRequests[k]|
      {
        ghost var before := resolved;
        var wait := SendHead(now, k);
        if wait.Some? {
          SendsTwice(old(resolved), before, resolved);
          Arm(now, k, wait.value);
          return;
        }
        SendsTwice(old(resolved), before, resolved);
        assert AllReady(k, waiting[..n + 1]) == AllReady(k, waiting[..n]) + [Ready(k, waiting[n])];
        n := n + 1;
      }
      Queue().RemoveValid(k);
      ArmsRemoved(arms, delayedRequests, nextPeerRequest, gate, clock, k);
      delayedRequests := delayedRequests - {k};
    }

    /** The head of a queue has to wait: a timer is set. */
    method Arm(now: nat, k: Key, wait: nat)
      requires ValidFor(Some(k)) && clock == now && Of(delayedRequests, k) != []
      requires wait > 0 && MustWait(activeRequests, gate, now, k, delayedRequests[k][0]) && IsWait(activeRequests, gate, now, k, delayedRequests[k][0], wait)
      modifies this`nextPeerRequest, this`arms
      ensures Valid() && Rearmed(old(nextPeerRequest), nextPeerRequest, activeRequests, gate, now, k, delayedRequests[k][0])
      ensures Due(nextPeerRequest, now) == Due(old(nextPeerRequest), now)
    {
      hide Queues.Valid, Emission, ActiveOk, Keyed, MustWait, Due, IsWait, AllArmed;
      Queue().ArmValid(k, now + wait);
      DueSnoc(nextPeerRequest, Timer(k, now + wait), now);
      NewlyArmed(arms, delayedRequests, nextPeerRequest, activeRequests, gate, now, k, wait);
      arms := arms[k := Arming(now, wait, gate, Count(activeRequests, k) >= 2)];
      nextPeerRequest := nextPeerRequest + [Timer(k, now + wait)];
    }

    /** A peer disconnected: the requests that wait for it fail, and each is reported. */
    method PeerDisconnected(peer: PeerId) returns (failed: seq<Req>)
      requires Valid()
      modifies this`activeRequests, this`delayedRequests, this`resolved
      ensures Valid() && peer !in activeRequests && nextPeerRequest == old(nextPeerRequest)
      ensures delayedRequests == map k | k in old(delayedRequests) && k.0 != peer :: old(delayedRequests)[k]
      ensures forall p :: FailedFor(failed, p) == Of(old(delayedRequests), (peer, p))
      ensures forall k: Key :: Of(resolved, k) == Of(old(resolved), k) + if k.0 == peer then DroppedAll(Of(old(delayedRequests), k)) else []
    {
      hide Queues.Valid, Emission, FailedFor, Keyed, DroppedAll, ArmedOk;
      activeRequests := activeRequests - {peer};
      failed := FailQueues(peer);
    }

    method FailQueues(peer: PeerId) returns (failed: seq<Req>)
      requires Queue().Valid(None) && Emission(resolved, readyRequests, emitted) && Keyed(delayedRequests)
      modifies this`delayedRequests, this`resolved
      ensures Queue().Valid(None) && Emission(resolved, readyRequests, emitted) && Keyed(delayedRequests)
      ensures delayedRequests == map k | k in old(delayedRequests) && k.0 != peer :: old(delayedRequests)[k]
      ensures forall p :: FailedFor(failed, p) == Of(old(delayedRequests), (peer, p))
      ensures forall k: Key :: Of(resolved, k) == Of(old(resolved), k) + if k.0 == peer then DroppedAll(Of(old(delayedRequests), k)) else []
    {
      hide Queues.Valid, Emission, FailedFor, Keyed, Failing, Dropping, DroppedAll;
      failed := [];
      DroppingStarts(delayedRequests, resolved, peer);
      ghost var before := delayedRequests;
      FailingStarts(before, peer);
      var todo := set k | k in delayedRequests && k.0 == peer;
      while todo != {}
        invariant Queue().Valid(None) && Emission(resolved, readyRequests, emitted) && Failing(before, delayedRequests, peer, todo, failed)
        invariant Dropping(before, delayedRequests, old(resolved), resolved, peer)
        decreases |todo|
      {
        var k :| k in todo;
        DroppingNext(before, delayedRequests, old(resolved), resolved, peer, todo, failed, k);
        FailingNext(before, delayedRequests, peer, todo, failed, k);
        failed := failed + delayedRequests[k];
        DropQueue(k);
        todo := todo - {k};
      }
      FailingEnds(before, delayedRequests, peer, failed);
      DroppingEnds(before, delayedRequests, old(resolved), resolved, peer);
    }

    method DropQueue(k: Key)
      requires Queue().Valid(None) && Emission(resolved, readyRequests, emitted) && k in delayedRequests
      modifies this`delayedRequests, this`resolved
      ensures Queue().Valid(None) && Emission(resolved, readyRequests, emitted) && delayedRequests == old(delayedRequests) - {k}
      ensures resolved == old(resolved)[k := Of(old(resolved), k) + DroppedAll(old(delayedRequests)[k])]
    {
      hide Queues.Valid, Emission, DroppedAll;
      Queue().DiscardValid(k);
      EmissionDropped(resolved, readyRequests, emitted, k, delayedRequests[k]);
      resolved := resolved[k := Of(resolved, k) + DroppedAll(delayedRequests[k])];
      delayedRequests := delayedRequests - {k};
    }

    /** A request ended. A stored count never falls to zero. */
    method RequestCompleted(peer: PeerId, p: Protocol)
      requires Valid()
      modifies this`activeRequests
      ensures Valid()
      ensures forall j: Key :: Count(activeRequests, j) ==
                if j == (peer, p) && Count(old(activeRequests), j) > 0 then Count(old(activeRequests), j) - 1 else Count(old(activeRequests), j)
    {
      hide Queues.Valid, Emission;
      if peer in activeRequests && p in activeRequests[peer] {
        var count := activeRequests[peer][p];
        if count > 1 {
          activeRequests := activeRequests[peer := activeRequests[peer][p := count - 1]];
        } else {
          activeRequests := activeRequests[peer := activeRequests[peer] - {p}];
        }
      }
    }

    /** Handles one timer that has run out, if there is one. */
    method PollTimer(now: nat) returns (ghost fired: Option<Timer>, ghost n: nat)
      requires Valid() && clock <= now
      modifies this`activeRequests, this`gate, this`delayedRequests, this`resolved, this`readyRequests, this`nextPeerRequest, this`arms, this`clock
      ensures Valid() && clock <= now && Sends(old(resolved), resolved)
      ensures fired.None? ==> unchanged(this) && Due(old(nextPeerRequest), now) == 0
      ensures fired.Some? ==>
                && fired.value in old(nextPeerRequest) && fired.value.deadline <= now && Due(nextPeerRequest, now) == Due(old(nextPeerRequest), now) - 1
                && Freed(old(delayedRequests), delayedRequests, fired.value.key, n)
                && readyRequests == old(readyRequests) + AllReady(fired.value.key, Of(old(delayedRequests), fired.value.key)[..n])
                && HeadMustWait(delayedRequests, fired.value.key, activeRequests, gate, now)
                && (n == 0 ==> HeadMustWait(old(delayedRequests), fired.value.key, old(activeRequests), old(gate), now))
    {
      hide Queues.Valid, Emission, ActiveOk, Keyed, Due, Sends, MustWait, ArmedOk, IsWait;
      SendsSame(resolved);
      var t, rest, i := TakeExpired(nextPeerRequest, now);
      fired, n := t, 0;
      if t.Some? {
        Queue().ExpireValid(i);
        ArmsExpired(arms, delayedRequests, nextPeerRequest, gate, clock, i);
        nextPeerRequest := rest;
        n := NextPeerRequestReady(now, t.value.key);
      }
    }

    /** Emits the newest ready request. */
    method PopReady() returns (r: Option<Ready>)
      requires Emission(resolved, readyRequests, emitted)
      modifies this`readyRequests, this`emitted
      ensures Emission(resolved, readyRequests, emitted)
      ensures if r.Some? then old(readyRequests) == readyRequests + [r.value] && emitted == Emit(old(emitted), r.value.key, r.value.req)
              else old(readyRequests) == readyRequests == [] && emitted == old(emitted)
    {
      hide Emission;
      if readyRequests == [] {
        return None;
      }
      var last := readyRequests[|readyRequests| - 1];
      EmissionPop(resolved, readyRequests, emitted);
      readyRequests := readyRequests[..|readyRequests| - 1];
      emitted := Emit(emitted, last.key, last.req);
      r := Some(last);
    }

    /** A poll: one timer that has run out is handled, and the newest ready request is emitted. */
    method PollReady(now: nat, pruneDue: bool) returns (r: Option<Ready>, ghost fired: Option<Timer>, ghost n: nat)
      requires Valid() && clock <= now
      modifies this
      ensures Valid() && clock <= now && submitted == old(submitted) && Sends(old(resolved), resolved)
      ensures emitted == if r.Some? then Emit(old(emitted), r.value.key, r.value.req) else old(emitted)
      ensures fired.None? ==> Due(old(nextPeerRequest), now) == 0 && delayedRequests == old(delayedRequests) && nextPeerRequest == old(nextPeerRequest)
      ensures fired.Some? ==>
                && fired.value in old(nextPeerRequest) && fired.value.deadline <= now && Due(nextPeerRequest, now) == Due(old(nextPeerRequest), now) - 1
                && Freed(old(delayedRequests), delayedRequests, fired.value.key, n)
                && HeadMustWait(delayedRequests, fired.value.key, activeRequests, gate, now)
                && (n == 0 ==> HeadMustWait(old(delayedRequests), fired.value.key, old(activeRequests), old(gate), now))
      ensures var ready := if fired.Some? then AllReady(fired.value.key, Of(old(delayedRequests), fired.value.key)[..n]) else [];
              old(readyRequests) + ready == readyRequests + if r.Some? then [r.value] else []
      ensures r.None? ==> readyRequests == []
    {
      hide Queues.Valid, Emission, ActiveOk, Keyed, Emit, Due, Sends, HeadMustWait, Freed, AllArmed;
      fired, n := PollTimer(now);
      if gate.Some? && pruneDue {
        if fired.Some? {
          StillMustWait(delayedRequests, fired.value.key, activeRequests, gate.value, now);
        }
        ArmsPruned(arms, delayedRequests, nextPeerRequest, gate.value, clock, now);
        gate, clock := Some(gate.value.Prune(now)), now;
      }
      r := PopReady();
    }
  }

  // ----- What the invariant means -----

  function DroppedItems(fates: seq<Fate<Req>>): seq<Req> {
    if fates == [] then []
    else DroppedItems(fates[..|fates| - 1]) + if fates[|fates| - 1].Dropped? then [fates[|fates| - 1].item] else []
  }

  lemma {:induction false} SentOrDropped(fates: seq<Fate<Req>>)
    ensures multiset(Items(fates)) == multiset(SentItems(fates)) + multiset(DroppedItems(fates))
  {
    if fates != [] {
      var init, last := fates[..|fates| - 1], fates[|fates| - 1];
      SentOrDropped(init);
      assert Items(fates) == Items(init) + [last.item];
    }
  }

  /** Only a disconnect fails requests: exactly those that wait for the peer. Everything else lets requests through. */
  lemma OnlyDisconnectsFail(r: map<Key, seq<Fate<Req>>>, r': map<Key, seq<Fate<Req>>>, k: Key, xs: seq<Req>)
    ensures Sends(r, r') ==> DroppedItems(Of(r', k)) == DroppedItems(Of(r, k))
    ensures Of(r', k) == Of(r, k) + DroppedAll(xs) ==> DroppedItems(Of(r', k)) == DroppedItems(Of(r, k)) + xs
  {
    hide DroppedItems, DroppedAll;
    if Sends(r, r') {
      NothingDropped(Of(r, k), Of(r', k));
    }
    DroppedItemsAll(Of(r, k), xs);
  }

  lemma {:induction false} NothingDropped(fates: seq<Fate<Req>>, more: seq<Fate<Req>>)
    requires fates <= more && NoDrops(more, |fates|)
    ensures DroppedItems(more) == DroppedItems(fates)
    decreases |more|
  {
    if |more| > |fates| {
      var init := more[..|more| - 1];
      NothingDropped(fates, init);
      assert more[|more| - 1].Sent?;
      assert DroppedItems(init) + [] == DroppedItems(init);
    } else {
      assert more == fates;
    }
  }

  lemma {:induction false} DroppedItemsAll(fates: seq<Fate<Req>>, xs: seq<Req>)
    ensures DroppedItems(fates + DroppedAll(xs)) == DroppedItems(fates) + xs
    decreases |xs|
  {
    if xs == [] {
      assert fates + DroppedAll(xs) == fates;
    } else {
      var init, last := xs[..|xs| - 1], xs[|xs| - 1];
      DroppedItemsAll(fates, init);
      var all := fates + DroppedAll(xs);
      assert all == fates + DroppedAll(init) + [Dropped(last)];
      assert all[..|all| - 1] == fates + DroppedAll(init);
      assert xs == init + [last];
    }
  }

  /**
    Every submitted request is emitted, ready, delayed or failed, exactly once; requests of a key leave the
    queue in the order they were submitted; and whoever waits has a timer.
  */
  lemma NothingIsLost(q: Queues<Req>, ready: seq<Ready>, emitted: map<Key, seq<Req>>, k: Key)
    requires q.Valid(None) && Emission(q.resolved, ready, emitted)
    ensures multiset(Of(q.submitted, k)) ==
            multiset(Of(emitted, k)) + multiset(ReadyFor(ready, k)) + multiset(Of(q.delayed, k)) + multiset(DroppedItems(Of(q.resolved, k)))
    ensures Items(Of(q.resolved, k)) <= Of(q.submitted, k)
    ensures Subsequence(ReadyFor(ready, k), SentItems(Of(q.resolved, k))) && Subsequence(SentItems(Of(q.resolved, k)), Items(Of(q.resolved, k)))
    ensures k in q.delayed ==> q.delayed[k] != [] && HasTimer(q.timers, k)
  {
    hide Items, SentItems, DroppedItems, HasTimer, ReadyFor, Subsequence;
    var fates := Of(q.resolved, k);
    SentOrDropped(fates);
    assert Of(q.submitted, k) == Items(fates) + Of(q.delayed, k);
    assert EmissionOf(q.resolved, ready, emitted, k);
    SentAreSubsequence(fates);
  }
}
