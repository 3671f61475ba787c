/** The rate limiter of one direction: one GCRA limiter per protocol, keyed by peer, and the history of its use. */
module LimiterGate {
  import opened Common
  import opened LimiterQueues
  import RL = RateLimiter

  datatype Gate = Gate(params: Protocol -> RL.Params, tats: map<Protocol, map<PeerId, RL.u64>>)
  {
    function TatsOf(p: Protocol): map<PeerId, RL.u64> {
      if p in tats then tats[p] else map[]
    }

    function Decide(now: nat, k: Key, tokens: RL.u64): RL.Decision {
      RL.Decide(params(k.1), TatsOf(k.1), now, k.0, tokens)
    }

    function Admit(now: nat, k: Key, tokens: RL.u64): Gate {
      this.(tats := tats[k.1 := RL.Admit(params(k.1), TatsOf(k.1), now, k.0, tokens)])
    }

    function Prune(now: nat): Gate {
      this.(tats := map p | p in tats :: RL.Pruned(tats[p], now))
    }
  }

  /** Asking again at once gives the same refusal, and a refusal asks for some patience. */
  lemma RefusedAgain(gate: Gate, now: nat, k: Key, tokens: RL.u64)
    requires gate.Decide(now, k, tokens).TooSoon?
    ensures gate.Admit(now, k, tokens).Decide(now, k, tokens) == gate.Decide(now, k, tokens) && gate.Decide(now, k, tokens).wait > 0
  {}

  /** What one key is told does not depend on what other keys were let through, nor on pruning at the same instant. */
  lemma RefusedAllTheSame(gate: Gate, now: nat, k: Key, tokens: RL.u64, j: Key, more: RL.u64)
    requires gate.Decide(now, k, tokens).TooSoon?
    ensures j != k ==> gate.Admit(now, j, more).Decide(now, k, tokens) == gate.Decide(now, k, tokens)
    ensures gate.Prune(now).Decide(now, k, tokens) == gate.Decide(now, k, tokens)
  {}

  /** Whoever is refused at this instant stays refused, `k` aside. */
  ghost predicate RefusalsStay(gate: Gate, gate': Gate, now: nat, k: Key) {
    forall j: Key :: j != k && gate.Decide(now, j, 1).TooSoon? ==> gate'.Decide(now, j, 1).TooSoon?
  }

  lemma AdmitKeepsRefusals(gate: Gate, now: nat, k: Key)
    ensures RefusalsStay(gate, gate.Admit(now, k, 1), now, k)
  {
    hide Gate.Decide, Gate.Admit;
    forall j: Key | j != k && gate.Decide(now, j, 1).TooSoon? ensures gate.Admit(now, k, 1).Decide(now, j, 1).TooSoon? {
      RefusedAllTheSame(gate, now, j, 1, k, 1);
    }
  }

  /** Nothing of `k` was let through between the two. */
  ghost predicate Since(before: Gate, after: Gate, k: Key, clock: nat) {
    after.params == before.params && RL.Kept(before.TatsOf(k.1), after.TatsOf(k.1), k.0, clock)
  }

  lemma SinceAdmit(gate: Gate, now: nat, k: Key, tokens: RL.u64, j: Key)
    ensures j != k || !gate.Decide(now, k, tokens).Accepted? ==> Since(gate, gate.Admit(now, k, tokens), j, now)
  {}

  lemma SincePrune(gate: Gate, now: nat, k: Key)
    ensures Since(gate, gate.Prune(now), k, now)
  {}

  lemma SinceTwice(a: Gate, b: Gate, c: Gate, k: Key, clock: nat, now: nat)
    requires Since(a, b, k, clock) && Since(b, c, k, now) && clock <= now
    ensures Since(a, c, k, now)
  {}

  /** A refusal lasts exactly as long as it says, if nothing of the key is let through meanwhile. */
  lemma RefusalEnds(before: Gate, after: Gate, k: Key, tokens: RL.u64, at: nat, wait: nat, clock: nat, u: nat)
    requires before.Decide(at, k, tokens) == RL.TooSoon(wait) && Since(before, after, k, clock)
    requires at <= u <= RL.U64_MAX && clock <= u
    ensures after.Decide(u, k, tokens) == if u < at + wait then RL.TooSoon(at + wait - u) else RL.Accepted
  {
    hide RL.Decide;
    RL.LaterAnswer(after.params(k.1), before.TatsOf(k.1), after.TatsOf(k.1), k.0, tokens, at, clock, u);
  }

  type Trace = seq<RL.Event<PeerId>>

  function TraceOf(traces: map<Protocol, Trace>, p: Protocol): Trace {
    if p in traces then traces[p] else []
  }

  function Asked(traces: map<Protocol, Trace>, now: nat, k: Key, tokens: RL.u64): map<Protocol, Trace> {
    traces[k.1 := TraceOf(traces, k.1) + [RL.Request(now, k.0, tokens)]]
  }

  function PrunedTraces(traces: map<Protocol, Trace>, now: nat): map<Protocol, Trace> {
    map p | p in traces :: traces[p] + [RL.Prune(now)]
  }

  /** Each limiter is in the state its history leads to, and the history is in time order up to `clock`. */
  ghost predicate Traced(gate: Gate, traces: map<Protocol, Trace>, clock: nat) {
    && gate.tats.Keys == traces.Keys
    && (forall p :: gate.TatsOf(p) == RL.RunState(gate.params(p), map[], TraceOf(traces, p)))
    && (forall p :: RL.Timed(TraceOf(traces, p), 0, clock))
  }

  lemma {:induction false} RunStateSnoc(p: RL.Params, tats: map<PeerId, RL.u64>, es: Trace, e: RL.Event<PeerId>)
    ensures RL.RunState(p, tats, es + [e]) == RL.Step(p, RL.RunState(p, tats, es), e)
    decreases es
  {
    if es != [] {
      assert (es + [e])[1..] == es[1..] + [e];
      RunStateSnoc(p, RL.Step(p, tats, es[0]), es[1..], e);
    } else {
      assert es + [e] == [e];
    }
  }

  lemma {:induction false} SpentSnoc(p: RL.Params, tats: map<PeerId, RL.u64>, es: Trace, e: RL.Event<PeerId>, peer: PeerId, a: nat, b: nat)
    ensures RL.Spent(p, tats, es + [e], peer, a, b) ==
            RL.Spent(p, tats, es, peer, a, b) + (if RL.Counted(p, RL.RunState(p, tats, es), e, peer, a, b) then e.tokens else 0)
    decreases es
  {
    hide RL.Decide, RL.Step;
    if es != [] {
      assert (es + [e])[1..] == es[1..] + [e];
      SpentSnoc(p, RL.Step(p, tats, es[0]), es[1..], e, peer, a, b);
    } else {
      assert es + [e] == [e];
      assert RL.Spent(p, RL.Step(p, tats, e), [], peer, a, b) == 0;
    }
  }

  lemma TimedSnoc(es: Trace, e: RL.Event<PeerId>, clock: nat)
    requires RL.Timed(es, 0, clock) && clock <= e.at
    ensures RL.Timed(es + [e], 0, e.at)
  {}

  lemma TimedLater(es: Trace, clock: nat, now: nat)
    requires RL.Timed(es, 0, clock) && clock <= now
    ensures RL.Timed(es, 0, now)
  {}

  lemma AdmitTraced(gate: Gate, traces: map<Protocol, Trace>, clock: nat, now: nat, k: Key, tokens: RL.u64)
    requires Traced(gate, traces, clock) && clock <= now
    ensures Traced(gate.Admit(now, k, tokens), Asked(traces, now, k, tokens), now)
  {
    hide RL.RunState, RL.Timed, RL.Admit;
    var gate', traces' := gate.Admit(now, k, tokens), Asked(traces, now, k, tokens);
    var e := RL.Request(now, k.0, tokens);
    forall p
      ensures gate'.TatsOf(p) == RL.RunState(gate'.params(p), map[], TraceOf(traces', p)) && RL.Timed(TraceOf(traces', p), 0, now)
    {
      assert gate.TatsOf(p) == RL.RunState(gate.params(p), map[], TraceOf(traces, p)) && RL.Timed(TraceOf(traces, p), 0, clock);
      if p == k.1 {
        RunStateSnoc(gate.params(p), map[], TraceOf(traces, p), e);
        TimedSnoc(TraceOf(traces, p), e, clock);
      } else {
        TimedLater(TraceOf(traces, p), clock, now);
      }
    }
  }

  lemma PruneTraced(gate: Gate, traces: map<Protocol, Trace>, clock: nat, now: nat)
    requires Traced(gate, traces, clock) && clock <= now
    ensures Traced(gate.Prune(now), PrunedTraces(traces, now), now)
  {
    hide RL.RunState, RL.Timed, RL.Pruned;
    var gate', traces' := gate.Prune(now), PrunedTraces(traces, now);
    var e := RL.Event<PeerId>.Prune(now);
    forall p
      ensures gate'.TatsOf(p) == RL.RunState(gate'.params(p), map[], TraceOf(traces', p)) && RL.Timed(TraceOf(traces', p), 0, now)
    {
      assert gate.TatsOf(p) == RL.RunState(gate.params(p), map[], TraceOf(traces, p)) && RL.Timed(TraceOf(traces, p), 0, clock);
      if p in traces {
        RunStateSnoc(gate.params(p), map[], TraceOf(traces, p), e);
        TimedSnoc(TraceOf(traces, p), e, clock);
      } else {
        TimedLater(TraceOf(traces, p), clock, now);
      }
    }
  }

  // ----- Counting what was let through -----

  /** How many of the instants are within [a, b]. */
  function InWindow(times: seq<nat>, a: nat, b: nat): nat {
    if times == [] then 0
    else InWindow(times[..|times| - 1], a, b) + if a <= times[|times| - 1] <= b then 1 else 0
  }

  lemma InWindowSnoc(times: seq<nat>, t: nat, a: nat, b: nat)
    ensures InWindow(times + [t], a, b) == InWindow(times, a, b) + if a <= t <= b then 1 else 0
  {
    assert (times + [t])[..|times|] == times;
  }

  /** The instants at which a key was let through are those at which its limiter accepted one token. */
  ghost predicate Counts(gate: Gate, traces: map<Protocol, Trace>, times: map<Key, seq<nat>>) {
    forall k: Key, a: nat, b: nat ::
      InWindow(Of(times, k), a, b) == RL.Spent(gate.params(k.1), map[], TraceOf(traces, k.1), k.0, a, b)
  }

  function Noted(times: map<Key, seq<nat>>, k: Key, now: nat): map<Key, seq<nat>> {
    times[k := Of(times, k) + [now]]
  }

  lemma AskedCounts(gate: Gate, traces: map<Protocol, Trace>, times: map<Key, seq<nat>>, clock: nat, now: nat, k: Key)
    requires Traced(gate, traces, clock) && Counts(gate, traces, times)
    ensures Counts(gate, Asked(traces, now, k, 1), if gate.Decide(now, k, 1).Accepted? then Noted(times, k, now) else times)
  {
    hide RL.Spent, RL.RunState, RL.Timed, RL.Decide, InWindow;
    var traces', times' := Asked(traces, now, k, 1), if gate.Decide(now, k, 1).Accepted? then Noted(times, k, now) else times;
    forall j: Key, a: nat, b: nat
      ensures InWindow(Of(times', j), a, b) == RL.Spent(gate.params(j.1), map[], TraceOf(traces', j.1), j.0, a, b)
    {
      assert InWindow(Of(times, j), a, b) == RL.Spent(gate.params(j.1), map[], TraceOf(traces, j.1), j.0, a, b);
      if j.1 == k.1 {
        SpentSnoc(gate.params(j.1), map[], TraceOf(traces, j.1), RL.Request(now, k.0, 1), j.0, a, b);
        assert gate.TatsOf(j.1) == RL.RunState(gate.params(j.1), map[], TraceOf(traces, j.1));
      }
      InWindowSnoc(Of(times, j), now, a, b);
    }
  }

  lemma PrunedCounts(gate: Gate, traces: map<Protocol, Trace>, times: map<Key, seq<nat>>, now: nat)
    requires Counts(gate, traces, times)
    ensures Counts(gate.Prune(now), PrunedTraces(traces, now), times)
  {
    hide RL.Spent, RL.RunState, InWindow;
    forall j: Key, a: nat, b: nat
      ensures InWindow(Of(times, j), a, b) == RL.Spent(gate.params(j.1), map[], TraceOf(PrunedTraces(traces, now), j.1), j.0, a, b)
    {
      assert InWindow(Of(times, j), a, b) == RL.Spent(gate.params(j.1), map[], TraceOf(traces, j.1), j.0, a, b);
      SpentSnoc(gate.params(j.1), map[], TraceOf(traces, j.1), RL.Event<PeerId>.Prune(now), j.0, a, b);
    }
  }

  /** In every window, what was let through for a peer and a protocol takes at most `tau + (b - a)` to replenish. */
  lemma WindowIsBounded(gate: Gate, traces: map<Protocol, Trace>, times: map<Key, seq<nat>>, clock: nat, k: Key, a: nat, b: nat)
    requires Traced(gate, traces, clock) && Counts(gate, traces, times)
    requires clock + gate.params(k.1).tau < RL.U64_MAX && a <= b
    ensures InWindow(Of(times, k), a, b) * gate.params(k.1).t <= gate.params(k.1).tau + (b - a)
  {
    hide RL.Spent, InWindow;
    var p := gate.params(k.1);
    var es := TraceOf(traces, k.1);
    assert RL.Timed(es, 0, clock);
    assert RL.Timed(es, 0, RL.U64_MAX - p.tau - 1);
    RL.WindowBound(p, es, k.0, a, b);
  }
}
