/**
  The per-key GCRA limiter in saturating u64 nanoseconds, and the facts that
  make it a rate limiter: it decides as GCRA over unbounded integers does,
  pruning is invisible, every window is bounded, and the wait it reports is exact.
*/
module RateLimiter {
  import opened Common

  const U64_MAX: nat := 0xFFFF_FFFF_FFFF_FFFF

  type u64 = x: nat | x <= U64_MAX

  function SatAdd(a: u64, b: u64): u64 {
    if a + b > U64_MAX then U64_MAX else a + b
  }

  function SatSub(a: u64, b: u64): u64 {
    if a < b then 0 else a - b
  }

  function SatMul(a: u64, b: u64): u64 {
    if a * b > U64_MAX then U64_MAX else a * b
  }

  /** `as u64`: keeps the low 64 bits. */
  function Truncate(n: nat): u64 {
    n % (U64_MAX + 1)
  }

  datatype Quota = Quota(replenishAllEvery: nat, maxTokens: u64)

  datatype Params = Params(tau: u64, t: u64)

  datatype Decision = Accepted | TooSoon(wait: nat) | TooLarge

  /** `tau` is the whole replenishing time, `t` the time of one token. */
  function FromQuota(q: Quota): (r: Option<Params>)
    requires q.maxTokens > 0
    ensures r.None? <==> q.replenishAllEvery == 0 || q.replenishAllEvery > U64_MAX
    ensures r.Some? ==> r.value.t * q.maxTokens <= r.value.tau < (r.value.t + 1) * q.maxTokens
  {
    if q.replenishAllEvery == 0 then None
    else
      var t := q.replenishAllEvery / q.maxTokens;
      QuotientBounds(q.replenishAllEvery, q.maxTokens);
      if t > U64_MAX || q.replenishAllEvery > U64_MAX then None
      else Some(Params(q.replenishAllEvery, t))
  }

  lemma QuotientBounds(n: nat, d: nat)
    requires d > 0
    ensures (n / d) * d <= n < (n / d + 1) * d
    ensures n / d <= n
  {
    var x := n / d;
    assert n == x * d + n % d;
    assert (x + 1) * d == x * d + d;
    MulMonotone(x, 1, d);
  }

  lemma MulMonotone(t: nat, a: nat, b: nat)
    requires a <= b
    ensures t * a <= t * b
  {
    assert t * b == t * a + t * (b - a);
  }

  // ----- One step of the limiter, as the code computes it -----

  /** The answer for a bucket full at `tat` to a batch that takes `additional` to replenish. */
  function Check(p: Params, tat: u64, now: u64, additional: u64): Decision {
    if additional > p.tau then TooLarge
    else
      var earliest := SatSub(SatAdd(tat, additional), p.tau);
      if now < earliest then TooSoon(SatSub(earliest, now)) else Accepted
  }

  /** The instant the bucket is full after that answer. */
  function NextTat(p: Params, tat: u64, now: u64, additional: u64): u64 {
    if Check(p, tat, now, additional).Accepted? then SatAdd(if now > tat then now else tat, additional) else tat
  }

  function Stored<Key>(tats: map<Key, u64>, key: Key, now: u64): u64 {
    if key in tats then tats[key] else now
  }

  function Decide<Key>(p: Params, tats: map<Key, u64>, nanos: nat, key: Key, tokens: u64): Decision {
    var now := Truncate(nanos);
    Check(p, Stored(tats, key, now), now, SatMul(p.t, tokens))
  }

  function Admit<Key>(p: Params, tats: map<Key, u64>, nanos: nat, key: Key, tokens: u64): map<Key, u64> {
    var now := Truncate(nanos);
    if Decide(p, tats, nanos, key, tokens).TooLarge? then tats
    else tats[key := NextTat(p, Stored(tats, key, now), now, SatMul(p.t, tokens))]
  }

  function Pruned<Key>(tats: map<Key, u64>, nanos: nat): map<Key, u64> {
    map k | k in tats && tats[k] >= Truncate(nanos) :: tats[k]
  }

  /** The limiter object: its two operations update the map in place. */
  class Limiter<Key(==)> {
    const params: Params
    var tatPerKey: map<Key, u64>

    constructor (params: Params)
      ensures this.params == params && tatPerKey == map[]
    {
      this.params := params;
      tatPerKey := map[];
    }

    method Allows(timeSinceStart: nat, key: Key, tokens: u64) returns (r: Decision)
      modifies this
      ensures r == Decide(params, old(tatPerKey), timeSinceStart, key, tokens)
      ensures tatPerKey == Admit(params, old(tatPerKey), timeSinceStart, key, tokens)
    {
      var now := Truncate(timeSinceStart);
      var additional := SatMul(params.t, tokens);
      if additional > params.tau {
        return TooLarge;
      }
      if key !in tatPerKey {
        tatPerKey := tatPerKey[key := now];
      }
      var tat := tatPerKey[key];
      var earliest := SatSub(SatAdd(tat, additional), params.tau);
      if now < earliest {
        r := TooSoon(SatSub(earliest, now));
      } else {
        tatPerKey := tatPerKey[key := SatAdd(if now > tat then now else tat, additional)];
        r := Accepted;
      }
    }

    method Prune(timeLimit: nat)
      modifies this
      ensures tatPerKey == Pruned(old(tatPerKey), timeLimit)
    {
      var lim := Truncate(timeLimit);
      tatPerKey := map k | k in tatPerKey && tatPerKey[k] >= lim :: tatPerKey[k];
    }
  }

  // ----- Runs -----

  datatype Event<Key> = Request(at: nat, key: Key, tokens: u64) | Prune(at: nat)

  function Step<Key>(p: Params, tats: map<Key, u64>, e: Event<Key>): map<Key, u64> {
    match e
    case Request(at, key, tokens) => Admit(p, tats, at, key, tokens)
    case Prune(at) => Pruned(tats, at)
  }

  function RunState<Key>(p: Params, tats: map<Key, u64>, es: seq<Event<Key>>): map<Key, u64>
    decreases es
  {
    if es == [] then tats else RunState(p, Step(p, tats, es[0]), es[1..])
  }

  /** The answers to the requests of a run, in order. */
  function Decisions<Key>(p: Params, tats: map<Key, u64>, es: seq<Event<Key>>): seq<Decision>
    decreases es
  {
    if es == [] then []
    else
      var rest := Decisions(p, Step(p, tats, es[0]), es[1..]);
      match es[0]
      case Request(at, key, tokens) => [Decide(p, tats, at, key, tokens)] + rest
      case Prune(_) => rest
  }

  /** Times never decrease, start no earlier than `from` and end no later than `until`. */
  ghost predicate Timed<Key(!new)>(es: seq<Event<Key>>, from: nat, until: int) {
    (forall i :: 0 <= i < |es| ==> from <= es[i].at <= until) &&
    (forall i, j :: 0 <= i <= j < |es| ==> es[i].at <= es[j].at)
  }

  lemma TimedTail<Key(!new)>(es: seq<Event<Key>>, from: nat, until: int)
    requires Timed(es, from, until) && es != []
    ensures Timed(es[1..], es[0].at, until)
  {}

  /** The instant a key's bucket is full, or 0 when nothing is stored. */
  function Tat<Key>(tats: map<Key, u64>, key: Key): nat {
    if key in tats then tats[key] else 0
  }

  function Max(a: int, b: int): int {
    if a < b then b else a
  }

  // ----- GCRA over unbounded integers, without pruning -----

  function GcraDecide(p: Params, tat: nat, now: nat, tokens: nat): Decision {
    if p.t * tokens > p.tau then TooLarge
    else if now < tat + p.t * tokens - p.tau then TooSoon(tat + p.t * tokens - p.tau - now) else Accepted
  }

  function GcraTat(p: Params, tat: nat, now: nat, tokens: nat): nat {
    if GcraDecide(p, tat, now, tokens).Accepted? then Max(now, tat) + p.t * tokens else tat
  }

  function GcraDecisions<Key(==,!new)>(p: Params, tat: Key -> nat, es: seq<Event<Key>>): seq<Decision>
    decreases es
  {
    if es == [] then []
    else
      match es[0]
      case Prune(_) => GcraDecisions(p, tat, es[1..])
      case Request(at, key, tokens) =>
        [GcraDecide(p, tat(key), at, tokens)] +
        GcraDecisions(p, GcraStep(p, tat, at, key, tokens), es[1..])
  }

  predicate SameKind(a: Decision, b: Decision) {
    a.Accepted? == b.Accepted? && a.TooSoon? == b.TooSoon? && a.TooLarge? == b.TooLarge?
  }

  /** Two states that no request at or after `now` can tell apart. */
  ghost predicate Agree<Key(!new)>(tats: map<Key, u64>, tat: Key -> nat, now: nat) {
    forall k :: Max(Tat(tats, k), now) == Max(tat(k), now)
  }

  /** No stored instant is more than `tau` ahead of the clock. */
  ghost predicate Bounded<Key(!new)>(p: Params, tats: map<Key, u64>, now: nat) {
    forall k :: k in tats ==> tats[k] <= now + p.tau
  }

  lemma StepBounded<Key(!new)>(p: Params, tats: map<Key, u64>, e: Event<Key>, now: nat)
    requires Bounded(p, tats, now) && now <= e.at <= U64_MAX
    ensures Bounded(p, Step(p, tats, e), e.at)
  {}

  lemma {:induction false} RunBounded<Key(!new)>(p: Params, tats: map<Key, u64>, es: seq<Event<Key>>, now: nat, until: nat)
    requires Bounded(p, tats, now) && Timed(es, now, until) && now <= until <= U64_MAX
    ensures Bounded(p, RunState(p, tats, es), until)
    decreases es
  {
    if es != [] {
      StepBounded(p, tats, es[0], now);
      TimedTail(es, now, until);
      RunBounded(p, Step(p, tats, es[0]), es[1..], es[0].at, until);
    }
  }

  /** One request: saturation changes neither the kind of answer nor the state that matters. */
  lemma StepIsGcra<Key(!new)>(p: Params, tats: map<Key, u64>, tat: nat, at: nat, key: Key, tokens: u64)
    requires at + p.tau < U64_MAX
    requires Max(Tat(tats, key), at) == Max(tat, at) && Tat(tats, key) <= at + p.tau
    ensures SameKind(Decide(p, tats, at, key, tokens), GcraDecide(p, tat, at, tokens))
    ensures at + 2 * p.tau < U64_MAX ==> Decide(p, tats, at, key, tokens) == GcraDecide(p, tat, at, tokens)
    ensures Max(Tat(Admit(p, tats, at, key, tokens), key), at) == Max(GcraTat(p, tat, at, tokens), at)
  {
    assert Truncate(at) == at;
    if p.t * tokens <= p.tau {
      CheckIsGcra(p, Stored(tats, key, at), tat, at, p.t * tokens);
    }
  }

  lemma CheckIsGcra(p: Params, stored: u64, tat: nat, at: u64, cost: u64)
    requires at + p.tau < U64_MAX && cost <= p.tau
    requires Max(stored, at) == Max(tat, at) && stored <= at + p.tau
    ensures Check(p, stored, at, cost).Accepted? <==> tat + cost - p.tau <= at
    ensures Check(p, stored, at, cost).TooSoon? <==> at < tat + cost - p.tau
    ensures Check(p, stored, at, cost).TooSoon? && at + 2 * p.tau < U64_MAX ==> Check(p, stored, at, cost).wait == tat + cost - p.tau - at
    ensures Check(p, stored, at, cost).Accepted? ==> NextTat(p, stored, at, cost) == Max(at, tat) + cost
  {}

  lemma TatOfOther<Key(!new)>(p: Params, tats: map<Key, u64>, at: nat, key: Key, tokens: u64, k: Key)
    requires k != key
    ensures Tat(Admit(p, tats, at, key, tokens), k) == Tat(tats, k)
  {}

  lemma TatOfPruned<Key(!new)>(tats: map<Key, u64>, at: nat, k: Key)
    requires at <= U64_MAX
    ensures Max(Tat(Pruned(tats, at), k), at) == Max(Tat(tats, k), at)
  {}

  function GcraStep<Key(==,!new)>(p: Params, tat: Key -> nat, at: nat, key: Key, tokens: nat): Key -> nat {
    (k: Key) => if k == key then GcraTat(p, tat(k), at, tokens) else tat(k)
  }

  lemma RequestAgrees<Key(!new)>(p: Params, tats: map<Key, u64>, tat: Key -> nat, at: nat, key: Key, tokens: u64, now: nat)
    requires now <= at && at + p.tau < U64_MAX
    requires Bounded(p, tats, now) && Agree(tats, tat, now)
    ensures SameKind(Decide(p, tats, at, key, tokens), GcraDecide(p, tat(key), at, tokens))
    ensures at + 2 * p.tau < U64_MAX ==> Decide(p, tats, at, key, tokens) == GcraDecide(p, tat(key), at, tokens)
    ensures Agree(Admit(p, tats, at, key, tokens), GcraStep(p, tat, at, key, tokens), at)
  {
    assert Max(Tat(tats, key), now) == Max(tat(key), now);
    StepIsGcra(p, tats, tat(key), at, key, tokens);
    var tats', tat' := Admit(p, tats, at, key, tokens), GcraStep(p, tat, at, key, tokens);
    forall k
      ensures Max(Tat(tats', k), at) == Max(tat'(k), at)
    {
      assert Max(Tat(tats, k), now) == Max(tat(k), now);
      if k != key { TatOfOther(p, tats, at, key, tokens, k); }
    }
  }

  lemma PruneAgrees<Key(!new)>(tats: map<Key, u64>, tat: Key -> nat, at: nat, now: nat)
    requires now <= at <= U64_MAX && Agree(tats, tat, now)
    ensures Agree(Pruned(tats, at), tat, at)
  {
    forall k
      ensures Max(Tat(Pruned(tats, at), k), at) == Max(tat(k), at)
    {
      assert Max(Tat(tats, k), now) == Max(tat(k), now);
      TatOfPruned(tats, at, k);
    }
  }

  lemma {:induction false} RunIsGcra<Key(!new)>(p: Params, tats: map<Key, u64>, tat: Key -> nat, es: seq<Event<Key>>, now: nat)
    requires Timed(es, now, U64_MAX - p.tau - 1)
    requires Bounded(p, tats, now) && Agree(tats, tat, now)
    ensures |Decisions(p, tats, es)| == |GcraDecisions(p, tat, es)|
    ensures forall i :: 0 <= i < |Decisions(p, tats, es)| ==>
              SameKind(Decisions(p, tats, es)[i], GcraDecisions(p, tat, es)[i])
    decreases es
  {
    if es != [] {
      TimedTail(es, now, U64_MAX - p.tau - 1);
      StepBounded(p, tats, es[0], now);
      match es[0]
      case Prune(at) =>
        PruneAgrees(tats, tat, at, now);
        RunIsGcra(p, Pruned(tats, at), tat, es[1..], at);
      case Request(at, key, tokens) =>
        RequestAgrees(p, tats, tat, at, key, tokens, now);
        RunIsGcra(p, Admit(p, tats, at, key, tokens), GcraStep(p, tat, at, key, tokens), es[1..], at);
    }
  }

  ghost predicate SameAnswers<Key(!new)>(p: Params, es: seq<Event<Key>>) {
    var code, gcra := Decisions(p, map[], es), GcraDecisions(p, (k: Key) => 0, es);
    |code| == |gcra| && forall i :: 0 <= i < |code| ==> SameKind(code[i], gcra[i])
  }

  /** From an empty limiter, every run that stays clear of the end of the u64 clock answers as GCRA does. */
  lemma LimiterIsGcra<Key(!new)>(p: Params, es: seq<Event<Key>>)
    requires Timed(es, 0, U64_MAX - p.tau - 1)
    ensures SameAnswers(p, es)
  {
    RunIsGcra(p, map[], (k: Key) => 0, es, 0);
  }

  lemma {:induction false} RunIsGcraExactly<Key(!new)>(p: Params, tats: map<Key, u64>, tat: Key -> nat, es: seq<Event<Key>>, now: nat, end: nat)
    requires Timed(es, now, end) && end + 2 * p.tau < U64_MAX
    requires Bounded(p, tats, now) && Agree(tats, tat, now)
    ensures Decisions(p, tats, es) == GcraDecisions(p, tat, es)
    decreases es
  {
    hide Decide, Admit, GcraDecide, Bounded, Agree, Pruned;
    if es != [] {
      TimedTail(es, now, end);
      StepBounded(p, tats, es[0], now);
      match es[0]
      case Prune(at) =>
        PruneAgrees(tats, tat, at, now);
        RunIsGcraExactly(p, Pruned(tats, at), tat, es[1..], at, end);
      case Request(at, key, tokens) =>
        RequestAgrees(p, tats, tat, at, key, tokens, now);
        RunIsGcraExactly(p, Admit(p, tats, at, key, tokens), GcraStep(p, tat, at, key, tokens), es[1..], at, end);
    }
  }

  /** With two full buckets to the end of the clock, the waits are those of GCRA too. */
  lemma WaitsAreGcra<Key(!new)>(p: Params, es: seq<Event<Key>>, end: nat)
    requires Timed(es, 0, end) && end + 2 * p.tau < U64_MAX
    ensures Decisions(p, map[], es) == GcraDecisions(p, (k: Key) => 0, es)
  {
    RunIsGcraExactly(p, map[], (k: Key) => 0, es, 0, end);
  }

  /** Every run that ends by `end` is answered as GCRA answers it. */
  ghost predicate AgreesUpTo<Key(!new)>(p: Params, end: nat) {
    forall es: seq<Event<Key>> :: Timed(es, 0, end) ==> SameAnswers(p, es)
  }

  /** Two full batches at one instant, one right after the other. */
  function TwoBatches<Key>(p: Params, now: nat, key: Key): seq<Event<Key>>
    requires p.t > 0
  {
    [Request(now, key, p.tau / p.t), Request(now, key, p.tau / p.t)]
  }

  /** A full batch is most of a bucket, and two of them are more than one. */
  lemma FullBatch(p: Params)
    requires 0 < p.t <= p.tau
    ensures var cost := p.t * (p.tau / p.t);
            SatMul(p.t, p.tau / p.t) == cost <= p.tau < 2 * cost
  {
    QuotientBounds(p.tau, p.t);
    var n := p.tau / p.t;
    assert n == 0 ==> (n + 1) * p.t == p.t;
    assert p.t * n == n * p.t && (n + 1) * p.t == n * p.t + p.t;
    MulMonotone(p.t, 1, n);
  }

  /** Within a full bucket of the end of the clock, saturation accepts a second full batch that GCRA refuses. */
  lemma SecondBatchIsAccepted<Key(!new)>(p: Params, now: nat, key: Key)
    requires 0 < p.t <= p.tau && now <= U64_MAX <= now + p.tau
    ensures var first := Admit(p, map[], now, key, p.tau / p.t);
            && Decide(p, map[], now, key, p.tau / p.t).Accepted?
            && Decide(p, first, now, key, p.tau / p.t).Accepted?
            && GcraDecide(p, 0, now, p.tau / p.t).Accepted?
            && GcraDecide(p, GcraTat(p, 0, now, p.tau / p.t), now, p.tau / p.t).TooSoon?
  {
    FullBatch(p);
  }

  lemma TwoBatchesDiffer<Key(!new)>(p: Params, now: nat, key: Key)
    requires 0 < p.t <= p.tau && now <= U64_MAX <= now + p.tau
    ensures Timed(TwoBatches(p, now, key), 0, now) && !SameAnswers(p, TwoBatches(p, now, key))
  {
    var es, n := TwoBatches(p, now, key), p.tau / p.t;
    SecondBatchIsAccepted(p, now, key);
    hide Decide, Admit, GcraDecide, GcraTat;
    var first := Admit(p, map[], now, key, n);
    assert Decisions(p, map[], es)[1] == Decide(p, first, now, key, n) by {
      assert es[1..] == [Request(now, key, n)];
      assert Decisions(p, first, es[1..])[0] == Decide(p, first, now, key, n);
    }
    var zero := (k: Key) => 0;
    var next := GcraStep(p, zero, now, key, n);
    assert GcraDecisions(p, zero, es)[1] == GcraDecide(p, next(key), now, n) by {
      assert es[1..] == [Request(now, key, n)];
      assert GcraDecisions(p, next, es[1..])[0] == GcraDecide(p, next(key), now, n);
    }
  }

  /** The limiter answers every run up to an instant as GCRA does if and only if the clock then stays a full bucket below its end. */
  lemma AgreesIffClearOfTheEnd<Key(!new)>(p: Params, end: nat, key: Key)
    requires 0 < p.t <= p.tau && end <= U64_MAX
    ensures AgreesUpTo<Key>(p, end) <==> end + p.tau < U64_MAX
  {
    if end + p.tau < U64_MAX {
      forall es: seq<Event<Key>> | Timed(es, 0, end)
        ensures SameAnswers(p, es)
      {
        assert Timed(es, 0, U64_MAX - p.tau - 1);
        LimiterIsGcra(p, es);
      }
    } else {
      TwoBatchesDiffer(p, end, key);
    }
  }

  // ----- Pruning is invisible -----

  function WithoutPrunes<Key>(es: seq<Event<Key>>): seq<Event<Key>> {
    if es == [] then []
    else if es[0].Prune? then WithoutPrunes(es[1..])
    else [es[0]] + WithoutPrunes(es[1..])
  }

  ghost predicate Alike<Key(!new)>(a: map<Key, u64>, b: map<Key, u64>, now: nat) {
    forall k :: Max(Tat(a, k), now) == Max(Tat(b, k), now)
  }

  lemma CheckAlike(p: Params, x: u64, y: u64, now: u64, additional: u64)
    requires Max(x, now) == Max(y, now)
    ensures Check(p, x, now, additional) == Check(p, y, now, additional)
    ensures Max(NextTat(p, x, now, additional), now) == Max(NextTat(p, y, now, additional), now)
  {}

  lemma KeyAlike<Key(!new)>(p: Params, a: map<Key, u64>, b: map<Key, u64>, at: nat, key: Key, tokens: u64)
    requires at <= U64_MAX && Max(Tat(a, key), at) == Max(Tat(b, key), at)
    ensures Decide(p, a, at, key, tokens) == Decide(p, b, at, key, tokens)
    ensures Max(Tat(Admit(p, a, at, key, tokens), key), at) == Max(Tat(Admit(p, b, at, key, tokens), key), at)
  {
    assert Truncate(at) == at;
    CheckAlike(p, Stored(a, key, at), Stored(b, key, at), at, SatMul(p.t, tokens));
  }

  lemma RequestAlike<Key(!new)>(p: Params, a: map<Key, u64>, b: map<Key, u64>, at: nat, key: Key, tokens: u64, now: nat)
    requires now <= at <= U64_MAX && Alike(a, b, now)
    ensures Decide(p, a, at, key, tokens) == Decide(p, b, at, key, tokens)
    ensures Alike(Admit(p, a, at, key, tokens), Admit(p, b, at, key, tokens), at)
  {
    assert Max(Tat(a, key), now) == Max(Tat(b, key), now);
    KeyAlike(p, a, b, at, key, tokens);
    forall k
      ensures Max(Tat(Admit(p, a, at, key, tokens), k), at) == Max(Tat(Admit(p, b, at, key, tokens), k), at)
    {
      if k != key {
        assert Max(Tat(a, k), now) == Max(Tat(b, k), now);
        TatOfOther(p, a, at, key, tokens, k);
        TatOfOther(p, b, at, key, tokens, k);
      }
    }
  }

  lemma PruneAlike<Key(!new)>(a: map<Key, u64>, b: map<Key, u64>, at: nat, now: nat)
    requires now <= at <= U64_MAX && Alike(a, b, now)
    ensures Alike(Pruned(a, at), b, at)
  {
    forall k
      ensures Max(Tat(Pruned(a, at), k), at) == Max(Tat(b, k), at)
    {
      assert Max(Tat(a, k), now) == Max(Tat(b, k), now);
      TatOfPruned(a, at, k);
    }
  }

  lemma {:induction false} RunAlike<Key(!new)>(p: Params, a: map<Key, u64>, b: map<Key, u64>, es: seq<Event<Key>>, now: nat)
    requires Timed(es, now, U64_MAX) && Alike(a, b, now)
    ensures Decisions(p, a, es) == Decisions(p, b, WithoutPrunes(es))
    decreases es
  {
    if es != [] {
      TimedTail(es, now, U64_MAX);
      match es[0]
      case Prune(at) =>
        PruneAlike(a, b, at, now);
        RunAlike(p, Pruned(a, at), b, es[1..], at);
      case Request(at, key, tokens) =>
        RequestAlike(p, a, b, at, key, tokens, now);
        RunAlike(p, Admit(p, a, at, key, tokens), Admit(p, b, at, key, tokens), es[1..], at);
        assert WithoutPrunes(es)[1..] == WithoutPrunes(es[1..]);
    }
  }

  /** Whatever prunes a run contains, its answers, waits included, are those of the run without them. */
  lemma PruneIsInvisible<Key(!new)>(p: Params, es: seq<Event<Key>>)
    requires Timed(es, 0, U64_MAX)
    ensures Decisions(p, map[], es) == Decisions(p, map[], WithoutPrunes(es))
  {
    RunAlike(p, map[], map[], es, 0);
  }

  // ----- The window bound -----

  /** The event is a request of `key` accepted at an instant within [a, b]. */
  predicate Counted<Key(==)>(p: Params, tats: map<Key, u64>, e: Event<Key>, key: Key, a: nat, b: nat) {
    e.Request? && e.key == key && a <= e.at <= b && Decide(p, tats, e.at, key, e.tokens).Accepted?
  }

  /** Tokens of `key` accepted at instants within [a, b]. */
  function Spent<Key(==)>(p: Params, tats: map<Key, u64>, es: seq<Event<Key>>, key: Key, a: nat, b: nat): nat
    decreases es
  {
    if es == [] then 0
    else
      var rest := Spent(p, Step(p, tats, es[0]), es[1..], key, a, b);
      if Counted(p, tats, es[0], key, a, b) then es[0].tokens + rest else rest
  }

  /** The time those tokens take to replenish. */
  function SpentTime<Key(==)>(p: Params, tats: map<Key, u64>, es: seq<Event<Key>>, key: Key, a: nat, b: nat): nat
    decreases es
  {
    if es == [] then 0
    else
      var rest := SpentTime(p, Step(p, tats, es[0]), es[1..], key, a, b);
      if Counted(p, tats, es[0], key, a, b) then SatMul(p.t, es[0].tokens) + rest else rest
  }

  /** What is left of a window's allowance once the bucket is full at `tat`, seen at `now`. */
  function Allowance(p: Params, tat: nat, now: nat, a: nat, b: nat): nat {
    Max(0, b + p.tau - Max(tat, Max(now, a)))
  }

  lemma KeptWhenRefused<Key(!new)>(p: Params, tats: map<Key, u64>, at: nat, key: Key, tokens: u64)
    requires at <= U64_MAX && !Decide(p, tats, at, key, tokens).Accepted?
    ensures Max(Tat(Admit(p, tats, at, key, tokens), key), at) == Max(Tat(tats, key), at)
  {}

  lemma AllowanceFalls(p: Params, tat: nat, cost: nat, at: nat, rest: nat, a: nat, b: nat, now: nat)
    requires now <= at && a <= b && tat <= now + p.tau && Max(at, tat) + cost <= at + p.tau
    requires rest <= Allowance(p, Max(at, tat) + cost, at, a, b)
    ensures rest <= Allowance(p, tat, now, a, b)
    ensures a <= at <= b ==> cost + rest <= Allowance(p, tat, now, a, b)
  {}

  lemma SpentOnEvent<Key(!new)>(p: Params, tats: map<Key, u64>, e: Event<Key>, key: Key, rest: nat, a: nat, b: nat, now: nat)
    requires now <= e.at && e.at + p.tau < U64_MAX && Tat(tats, key) <= now + p.tau && a <= b
    requires rest <= Allowance(p, Tat(Step(p, tats, e), key), e.at, a, b)
    ensures rest <= Allowance(p, Tat(tats, key), now, a, b)
    ensures Counted(p, tats, e, key, a, b) ==> SatMul(p.t, e.tokens) + rest <= Allowance(p, Tat(tats, key), now, a, b)
  {
    match e
    case Prune(at) =>
      TatOfPruned(tats, at, key);
    case Request(at, k, tokens) =>
      if k != key {
        TatOfOther(p, tats, at, k, tokens, key);
      } else if Decide(p, tats, at, k, tokens).Accepted? {
        AcceptedMoves(p, tats, at, key, tokens);
        AllowanceFalls(p, Tat(tats, key), SatMul(p.t, tokens), at, rest, a, b, now);
      } else {
        KeptWhenRefused(p, tats, at, key, tokens);
      }
  }

  lemma {:induction false} SpentBound<Key(!new)>(p: Params, tats: map<Key, u64>, es: seq<Event<Key>>, key: Key, a: nat, b: nat, now: nat)
    requires Timed(es, now, U64_MAX - p.tau - 1)
    requires Bounded(p, tats, now) && a <= b
    ensures SpentTime(p, tats, es, key, a, b) <= Allowance(p, Tat(tats, key), now, a, b)
    decreases es
  {
    if es != [] {
      TimedTail(es, now, U64_MAX - p.tau - 1);
      StepBounded(p, tats, es[0], now);
      SpentBound(p, Step(p, tats, es[0]), es[1..], key, a, b, es[0].at);
      SpentOnEvent(p, tats, es[0], key, SpentTime(p, Step(p, tats, es[0]), es[1..], key, a, b), a, b, now);
    }
  }

  /** No accepted batch was large enough to saturate its time. */
  lemma {:induction false} SpentTimeOfTokens<Key(!new)>(p: Params, tats: map<Key, u64>, es: seq<Event<Key>>, key: Key, a: nat, b: nat)
    requires p.tau < U64_MAX
    ensures Spent(p, tats, es, key, a, b) * p.t == SpentTime(p, tats, es, key, a, b)
    decreases es
  {
    if es != [] {
      SpentTimeOfTokens(p, Step(p, tats, es[0]), es[1..], key, a, b);
      if Counted(p, tats, es[0], key, a, b) {
        assert SatMul(p.t, es[0].tokens) <= p.tau;
        Distribute(es[0].tokens, Spent(p, Step(p, tats, es[0]), es[1..], key, a, b), p.t);
      }
    }
  }

  lemma Distribute(x: nat, y: nat, t: nat)
    ensures (x + y) * t == t * x + y * t
  {}

  /** An accepted request moves the full-bucket instant forward by its tokens, and no further than `tau` ahead. */
  lemma AcceptedMoves<Key(!new)>(p: Params, tats: map<Key, u64>, at: nat, key: Key, tokens: u64)
    requires at + p.tau < U64_MAX && Tat(tats, key) <= at + p.tau
    requires Decide(p, tats, at, key, tokens).Accepted?
    ensures Tat(Admit(p, tats, at, key, tokens), key) == Max(at, Tat(tats, key)) + SatMul(p.t, tokens) <= at + p.tau
  {}

  /** In every window [a, b] of every run, the accepted tokens of a key take at most `tau + (b - a)` to replenish. */
  lemma WindowBound<Key(!new)>(p: Params, es: seq<Event<Key>>, key: Key, a: nat, b: nat)
    requires Timed(es, 0, U64_MAX - p.tau - 1) && a <= b
    ensures Spent(p, map[], es, key, a, b) * p.t <= p.tau + (b - a)
  {
    if es != [] {
      SpentBound(p, map[], es, key, a, b, 0);
      SpentTimeOfTokens(p, map[], es, key, a, b);
    }
  }

  // ----- The reported wait is exact -----

  /** No request for `key` is accepted in the run. */
  ghost predicate NoneAccepted<Key(!new)>(p: Params, tats: map<Key, u64>, es: seq<Event<Key>>, key: Key)
    decreases es
  {
    es != [] ==>
      (es[0].Request? && es[0].key == key ==> !Decide(p, tats, es[0].at, key, es[0].tokens).Accepted?) &&
      NoneAccepted(p, Step(p, tats, es[0]), es[1..], key)
  }

  lemma {:induction false} TatKept<Key(!new)>(p: Params, tats: map<Key, u64>, es: seq<Event<Key>>, key: Key, now: nat)
    requires key in tats && Timed(es, now, tats[key]) && NoneAccepted(p, tats, es, key)
    ensures key in RunState(p, tats, es) && RunState(p, tats, es)[key] == tats[key]
    decreases es
  {
    if es != [] {
      TimedTail(es, now, tats[key]);
      TatKept(p, Step(p, tats, es[0]), es[1..], key, es[0].at);
    }
  }

  lemma RefusedTat<Key(!new)>(p: Params, tats: map<Key, u64>, now: nat, key: Key, tokens: u64)
    requires now <= U64_MAX && Decide(p, tats, now, key, tokens).TooSoon?
    ensures key in tats && Admit(p, tats, now, key, tokens) == tats
    ensures now + Decide(p, tats, now, key, tokens).wait <= tats[key]
  {
    assert Truncate(now) == now;
    assert tats[key := Stored(tats, key, now)] == tats;
  }

  /** A bucket that stays as it is gives the same batch the rest of its wait, then accepts it. */
  lemma CheckLater(p: Params, tat: u64, now: u64, additional: u64, u: u64)
    requires tat <= now + p.tau && now + 2 * p.tau <= U64_MAX
    requires Check(p, tat, now, additional).TooSoon?
    requires now <= u <= now + Check(p, tat, now, additional).wait
    ensures Check(p, tat, u, additional) ==
            var end := now + Check(p, tat, now, additional).wait; if u < end then TooSoon(end - u) else Accepted
  {}

  lemma DecideOnTat<Key>(p: Params, tats: map<Key, u64>, now: nat, key: Key, tokens: u64)
    requires now <= U64_MAX && key in tats
    ensures Decide(p, tats, now, key, tokens) == Check(p, tats[key], now, SatMul(p.t, tokens))
  {}

  lemma {:induction false} WaitIsExact<Key(!new)>(p: Params, tats: map<Key, u64>, now: nat, key: Key, tokens: u64,
                                                  between: seq<Event<Key>>, u: nat)
    requires Bounded(p, tats, now) && now + 2 * p.tau <= U64_MAX
    requires Decide(p, tats, now, key, tokens).TooSoon?
    requires now <= u <= now + Decide(p, tats, now, key, tokens).wait
    requires Timed(between, now, u) && NoneAccepted(p, tats, between, key)
    ensures Decide(p, RunState(p, tats, between), u, key, tokens) ==
            var end := now + Decide(p, tats, now, key, tokens).wait; if u < end then TooSoon(end - u) else Accepted
  {
    hide Decide, Check, SatMul, RunState, NoneAccepted;
    RefusedTat(p, tats, now, key, tokens);
    TatKept(p, tats, between, key, now);
    DecideOnTat(p, tats, now, key, tokens);
    DecideOnTat(p, RunState(p, tats, between), u, key, tokens);
    CheckLater(p, tats[key], now, SatMul(p.t, tokens), u);
  }

  /**
    After TooSoon(w) at `now` in any reachable state, and any further run in
    which no request of the key is accepted, the same request is refused, with
    the rest of the wait, at every instant before now + w and accepted at now + w.
  */
  lemma TooSoonIsExact<Key(!new)>(p: Params, before: seq<Event<Key>>, now: nat, key: Key, tokens: u64,
                                  between: seq<Event<Key>>, u: nat)
    requires Timed(before, 0, now) && now + 2 * p.tau <= U64_MAX
    requires var tats := RunState(p, map[], before);
             && Decide(p, tats, now, key, tokens).TooSoon?
             && now <= u <= now + Decide(p, tats, now, key, tokens).wait
             && Timed(between, now, u)
             && NoneAccepted(p, Admit(p, tats, now, key, tokens), between, key)
    ensures var tats := RunState(p, map[], before);
            var w := Decide(p, tats, now, key, tokens).wait;
            var later := RunState(p, Admit(p, tats, now, key, tokens), between);
            Decide(p, later, u, key, tokens) == if u < now + w then TooSoon(now + w - u) else Accepted
  {
    var tats := RunState(p, map[], before);
    RunBounded(p, map[], before, 0, now);
    RefusedTat(p, tats, now, key, tokens);
    WaitIsExact(p, tats, now, key, tokens, between, u);
  }

  /** The bucket of a key is as it was, or was full and has been pruned. */
  ghost predicate Kept<Key(!new)>(a: map<Key, u64>, b: map<Key, u64>, key: Key, clock: nat) {
    (key in b ==> key in a && b[key] == a[key]) && (key in a && key !in b ==> a[key] < clock)
  }

  /** What a batch is told later follows from what it would have been told then. */
  lemma LaterAnswer<Key(!new)>(p: Params, a: map<Key, u64>, b: map<Key, u64>, key: Key, tokens: u64, at: nat, clock: nat, u: nat)
    requires Kept(a, b, key, clock) && at <= u <= U64_MAX && clock <= u
    ensures Decide(p, b, u, key, tokens) ==
            match Decide(p, a, at, key, tokens)
            case TooSoon(w) => if u < at + w then TooSoon(at + w - u) else Accepted
            case other => other
  {
    hide SatMul;
    assert Truncate(at) == at && Truncate(u) == u;
  }

  // ----- What a quota promises -----

  /** A batch of up to `maxTokens` is never too large, and a new key gets it at once. */
  lemma BurstIsAllowed<Key(!new)>(q: Quota, tats: map<Key, u64>, nanos: nat, key: Key, tokens: u64)
    requires q.maxTokens > 0 && FromQuota(q).Some? && tokens <= q.maxTokens
    ensures !Decide(FromQuota(q).value, tats, nanos, key, tokens).TooLarge?
    ensures key !in tats ==> Decide(FromQuota(q).value, tats, nanos, key, tokens).Accepted?
  {
    var p := FromQuota(q).value;
    MulMonotone(p.t, tokens, q.maxTokens);
  }

  /**
    Larger batches are all refused exactly when the remainder of the division
    is smaller than one token: otherwise one more token fits in the bucket.
  */
  lemma BurstIsTight<Key(!new)>(q: Quota, tats: map<Key, u64>, nanos: nat, key: Key)
    requires q.maxTokens > 0 && FromQuota(q).Some? && FromQuota(q).value.tau < U64_MAX && q.maxTokens < U64_MAX
    ensures (forall tokens: u64 :: tokens > q.maxTokens ==> Decide(FromQuota(q).value, tats, nanos, key, tokens).TooLarge?)
       <==> q.replenishAllEvery % q.maxTokens < q.replenishAllEvery / q.maxTokens
  {
    var p := FromQuota(q).value;
    var n, d := q.replenishAllEvery, q.maxTokens;
    assert n == (n / d) * d + n % d;
    assert p.t * (d + 1) == p.t * d + p.t;
    if n % d < n / d {
      forall tokens: u64 | tokens > d
        ensures Decide(p, tats, nanos, key, tokens).TooLarge?
      {
        MulMonotone(p.t, d + 1, tokens);
      }
    } else {
      assert !Decide(p, tats, nanos, key, d + 1).TooLarge?;
    }
  }
}
