/** What the request and the response limiter share: queues of delayed items per peer and protocol, and their timers. */
module LimiterQueues {
  import opened Common

  type Key = (PeerId, Protocol)

  /** What became of an item: it was let through, or it was given up when its peer disconnected. */
  datatype Fate<X> = Sent(item: X) | Dropped(item: X)

  function Of<X>(m: map<Key, seq<X>>, k: Key): seq<X> {
    if k in m then m[k] else []
  }

  function Items<X>(fates: seq<Fate<X>>): seq<X> {
    seq(|fates|, i requires 0 <= i < |fates| => fates[i].item)
  }

  function SentItems<X>(fates: seq<Fate<X>>): seq<X> {
    if fates == [] then []
    else SentItems(fates[..|fates| - 1]) +
         (if fates[|fates| - 1].Sent? then [fates[|fates| - 1].item] else [])
  }

  function DroppedAll<X>(xs: seq<X>): seq<Fate<X>> {
    seq(|xs|, i requires 0 <= i < |xs| => Dropped(xs[i]))
  }

  lemma SentItemsSnoc<X>(fates: seq<Fate<X>>, f: Fate<X>)
    ensures SentItems(fates + [f]) == SentItems(fates) + (if f.Sent? then [f.item] else [])
  {
    assert (fates + [f])[..|fates|] == fates;
  }

  lemma {:induction false} DroppedAreNotSent<X>(fates: seq<Fate<X>>, xs: seq<X>)
    ensures SentItems(fates + DroppedAll(xs)) == SentItems(fates)
    decreases |xs|
  {
    if xs == [] {
      assert fates + DroppedAll(xs) == fates;
    } else {
      var init := xs[..|xs| - 1];
      DroppedAreNotSent(fates, init);
      assert fates + DroppedAll(xs) == fates + DroppedAll(init) + [Dropped(xs[|xs| - 1])];
      SentItemsSnoc(fates + DroppedAll(init), Dropped(xs[|xs| - 1]));
    }
  }

  lemma {:induction false} SentItemsConcat<X>(a: seq<Fate<X>>, b: seq<Fate<X>>)
    ensures SentItems(a + b) == SentItems(a) + SentItems(b)
    decreases |b|
  {
    if b == [] {
      assert a + b == a;
    } else {
      var init, last := b[..|b| - 1], b[|b| - 1];
      SentItemsConcat(a, init);
      assert a + b == a + init + [last] && b == init + [last];
      SentItemsSnoc(a + init, last);
      SentItemsSnoc(init, last);
    }
  }

  lemma ItemsSnoc<X>(fates: seq<Fate<X>>, f: Fate<X>)
    ensures Items(fates + [f]) == Items(fates) + [f.item]
  {}

  /** Nothing was given up from position `n` on. */
  ghost predicate NoDrops<X>(fates: seq<Fate<X>>, n: nat) {
    forall i :: n <= i < |fates| ==> fates[i].Sent?
  }

  lemma {:induction false} AllSent<X>(fates: seq<Fate<X>>)
    requires NoDrops(fates, 0)
    ensures SentItems(fates) == Items(fates)
  {
    if fates != [] {
      AllSent(fates[..|fates| - 1]);
    }
  }

  /** Histories only grow. */
  ghost predicate Grows<X(!new)>(r: map<Key, seq<Fate<X>>>, r': map<Key, seq<Fate<X>>>) {
    forall k: Key :: Of(r, k) <= Of(r', k)
  }

  /** Histories only grow, and by items let through. */
  ghost predicate Sends<X(!new)>(r: map<Key, seq<Fate<X>>>, r': map<Key, seq<Fate<X>>>) {
    forall k: Key :: Of(r, k) <= Of(r', k) && NoDrops(Of(r', k), |Of(r, k)|)
  }

  lemma SendsSame<X(!new)>(r: map<Key, seq<Fate<X>>>)
    ensures Sends(r, r)
  {}

  lemma SendsOne<X(!new)>(r: map<Key, seq<Fate<X>>>, k: Key, x: X)
    ensures Sends(r, r[k := Of(r, k) + [Sent(x)]])
  {}

  lemma SendsTwice<X(!new)>(r: map<Key, seq<Fate<X>>>, r': map<Key, seq<Fate<X>>>, r'': map<Key, seq<Fate<X>>>)
    requires Sends(r, r') && Sends(r', r'')
    ensures Sends(r, r'')
  {
    forall k: Key
      ensures Of(r, k) <= Of(r'', k) && NoDrops(Of(r'', k), |Of(r, k)|)
    {
      assert Of(r, k) <= Of(r', k) && Of(r', k) <= Of(r'', k);
      assert NoDrops(Of(r', k), |Of(r, k)|) && NoDrops(Of(r'', k), |Of(r', k)|);
    }
  }

  // ----- Order -----

  /** `a` is what is left of `b` after leaving out some elements. */
  predicate Subsequence<X(==)>(a: seq<X>, b: seq<X>) {
    if a == [] then true
    else if b == [] then false
    else Subsequence(a, b[..|b| - 1]) || (a[|a| - 1] == b[|b| - 1] && Subsequence(a[..|a| - 1], b[..|b| - 1]))
  }

  lemma SubsequenceSnoc<X>(a: seq<X>, b: seq<X>, x: X)
    requires Subsequence(a, b)
    ensures Subsequence(a, b + [x]) && Subsequence(a + [x], b + [x])
  {
    assert (b + [x])[..|b|] == b && (a + [x])[..|a|] == a;
  }

  lemma {:induction false} SubsequenceInit<X>(a: seq<X>, b: seq<X>)
    requires Subsequence(a, b) && a != []
    ensures Subsequence(a[..|a| - 1], b)
  {
    if Subsequence(a, b[..|b| - 1]) {
      SubsequenceInit(a, b[..|b| - 1]);
    }
  }

  lemma {:induction false} SentAreSubsequence<X>(fates: seq<Fate<X>>)
    ensures Subsequence(SentItems(fates), Items(fates))
  {
    if fates != [] {
      var init, last := fates[..|fates| - 1], fates[|fates| - 1];
      SentAreSubsequence(init);
      assert Items(fates) == Items(init) + [last.item] && SentItems(init) + [] == SentItems(init);
      SubsequenceSnoc(SentItems(init), Items(init), last.item);
    }
  }

  // ----- Timers -----

  datatype Timer = Timer(key: Key, deadline: nat)

  ghost predicate HasTimer(timers: seq<Timer>, k: Key) {
    exists i :: 0 <= i < |timers| && timers[i].key == k
  }

  /** How many timers have run out. */
  function Due(timers: seq<Timer>, now: nat): nat {
    if timers == [] then 0
    else Due(timers[..|timers| - 1], now) + if timers[|timers| - 1].deadline <= now then 1 else 0
  }

  function Without(timers: seq<Timer>, i: nat): seq<Timer>
    requires i < |timers|
  {
    timers[..i] + timers[i + 1..]
  }

  lemma DueSnoc(timers: seq<Timer>, t: Timer, now: nat)
    ensures Due(timers + [t], now) == Due(timers, now) + if t.deadline <= now then 1 else 0
  {
    assert (timers + [t])[..|timers|] == timers;
  }

  lemma {:induction false} DueWithout(timers: seq<Timer>, i: nat, now: nat)
    requires i < |timers| && timers[i].deadline <= now
    ensures Due(timers, now) == Due(Without(timers, i), now) + 1
  {
    var last, init := timers[|timers| - 1], timers[..|timers| - 1];
    assert timers == init + [last];
    DueSnoc(init, last, now);
    if i < |init| {
      DueWithout(init, i, now);
      assert Without(timers, i) == Without(init, i) + [last];
      DueSnoc(Without(init, i), last, now);
    } else {
      assert Without(timers, i) == init;
    }
  }

  lemma OthersKeepTimers(timers: seq<Timer>, i: nat, k: Key)
    requires i < |timers| && HasTimer(timers, k) && timers[i].key != k
    ensures HasTimer(Without(timers, i), k)
  {
    var j :| 0 <= j < |timers| && timers[j].key == k;
    assert Without(timers, i)[if j < i then j else j - 1].key == k;
  }

  lemma MoreTimers(timers: seq<Timer>, t: Timer, k: Key)
    requires HasTimer(timers, k) || t.key == k
    ensures HasTimer(timers + [t], k)
  {
    if HasTimer(timers, k) {
      var j :| 0 <= j < |timers| && timers[j].key == k;
      assert (timers + [t])[j].key == k;
    } else {
      assert (timers + [t])[|timers|].key == k;
    }
  }

  /** Takes a timer that has run out, if there is one. */
  method TakeExpired(timers: seq<Timer>, now: nat) returns (t: Option<Timer>, rest: seq<Timer>, ghost i: nat)
    ensures t.None? ==> rest == timers && Due(timers, now) == 0 && forall j :: 0 <= j < |timers| ==> timers[j].deadline > now
    ensures t.Some? ==> i < |timers| && t.value == timers[i] && t.value.deadline <= now && rest == Without(timers, i) && Due(timers, now) == Due(rest, now) + 1
  {
    i := 0;
    for n := 0 to |timers|
      invariant Due(timers[..n], now) == 0
      invariant forall j :: 0 <= j < n ==> timers[j].deadline > now
    {
      if timers[n].deadline <= now {
        DueWithout(timers, n, now);
        return Some(timers[n]), timers[..n] + timers[n + 1..], n;
      }
      assert timers[..n + 1] == timers[..n] + [timers[n]];
      DueSnoc(timers[..n], timers[n], now);
    }
    assert timers[..|timers|] == timers;
    return None, timers, 0;
  }

  // ----- Queues -----

  /** `submitted` and `resolved` are history: everything given to the limiter, and what became of it. */
  datatype Queues<!X> = Queues(
    delayed: map<Key, seq<X>>,
    timers: seq<Timer>,
    submitted: map<Key, seq<X>>,
    resolved: map<Key, seq<Fate<X>>>)
  {
    /** Per key, what was submitted is what was resolved and then what is delayed, in this order. */
    ghost predicate Conserved() {
      forall k: Key :: Of(submitted, k) == Items(Of(resolved, k)) + Of(delayed, k)
    }

    /** Every queue but that of `skip` is non-empty and has a timer. */
    ghost predicate Timed(skip: Option<Key>) {
      forall k :: k in delayed && Some(k) != skip ==> delayed[k] != [] && HasTimer(timers, k)
    }

    ghost predicate Valid(skip: Option<Key>) {
      Conserved() && Timed(skip)
    }

    function Resolve(k: Key, f: Fate<X>): Queues<X> {
      this.(resolved := resolved[k := Of(resolved, k) + [f]])
    }

    function Submit(k: Key, x: X): Queues<X> {
      this.(submitted := submitted[k := Of(submitted, k) + [x]])
    }

    /** An item is let through at once. */
    function Pass(k: Key, x: X): Queues<X> {
      Submit(k, x).Resolve(k, Sent(x))
    }

    /** An item joins its queue. */
    function Join(k: Key, x: X): Queues<X> {
      Submit(k, x).(delayed := delayed[k := Of(delayed, k) + [x]])
    }

    function Arm(t: Timer): Queues<X> {
      this.(timers := timers + [t])
    }

    /** The head of a queue is let through. */
    function Release(k: Key): Queues<X>
      requires Of(delayed, k) != []
    {
      Resolve(k, Sent(delayed[k][0])).(delayed := delayed[k := delayed[k][1..]])
    }

    /** A whole queue is given up. */
    function Discard(k: Key): Queues<X>
      requires k in delayed
    {
      this.(delayed := delayed - {k}, resolved := resolved[k := Of(resolved, k) + DroppedAll(delayed[k])])
    }

    lemma PassConserved(k: Key, x: X)
      requires Conserved() && k !in delayed
      ensures Pass(k, x).Conserved()
    {
      hide Items;
      ItemsSnoc(Of(resolved, k), Sent(x));
      forall j: Key ensures Of(Pass(k, x).submitted, j) == Items(Of(Pass(k, x).resolved, j)) + Of(delayed, j) {
        assert Of(submitted, j) == Items(Of(resolved, j)) + Of(delayed, j);
      }
    }

    lemma JoinConserved(k: Key, x: X)
      requires Conserved()
      ensures Join(k, x).Conserved()
    {
      forall j: Key ensures Of(Join(k, x).submitted, j) == Items(Of(resolved, j)) + Of(Join(k, x).delayed, j) {
        assert Of(submitted, j) == Items(Of(resolved, j)) + Of(delayed, j);
      }
    }

    lemma ReleaseConserved(k: Key)
      requires Conserved() && Of(delayed, k) != []
      ensures Release(k).Conserved()
    {
      hide Items;
      var x := delayed[k][0];
      ItemsSnoc(Of(resolved, k), Sent(x));
      assert Items(Of(resolved, k)) + [x] + delayed[k][1..] == Items(Of(resolved, k)) + delayed[k];
      forall j: Key ensures Of(submitted, j) == Items(Of(Release(k).resolved, j)) + Of(Release(k).delayed, j) {
        assert Of(submitted, j) == Items(Of(resolved, j)) + Of(delayed, j);
      }
    }

    lemma DiscardConserved(k: Key)
      requires Conserved() && k in delayed
      ensures Discard(k).Conserved()
    {
      assert Items(Of(resolved, k) + DroppedAll(delayed[k])) == Items(Of(resolved, k)) + delayed[k];
      forall j: Key ensures Of(submitted, j) == Items(Of(Discard(k).resolved, j)) + Of(Discard(k).delayed, j) {
        assert Of(submitted, j) == Items(Of(resolved, j)) + Of(delayed, j);
      }
    }

    lemma PassValid(k: Key, x: X, skip: Option<Key>)
      requires Valid(skip) && k !in delayed
      ensures Pass(k, x).Valid(skip)
    {
      PassConserved(k, x);
    }

    /** An item joins a queue that has a timer, or brings one. */
    lemma JoinValid(k: Key, x: X)
      requires Valid(None) && k in delayed
      ensures Join(k, x).Valid(None)
    {
      JoinConserved(k, x);
    }

    lemma DelayValid(k: Key, x: X, deadline: nat)
      requires Valid(None)
      ensures Join(k, x).Arm(Timer(k, deadline)).Valid(None)
    {
      JoinConserved(k, x);
      hide HasTimer;
      var q := Join(k, x).Arm(Timer(k, deadline));
      forall j | j in q.delayed ensures q.delayed[j] != [] && HasTimer(q.timers, j) {
        MoreTimers(timers, Timer(k, deadline), j);
      }
    }

    lemma ReleaseValid(k: Key)
      requires Valid(Some(k)) && Of(delayed, k) != []
      ensures Release(k).Valid(Some(k))
    {
      hide Conserved, HasTimer;
      ReleaseConserved(k);
    }

    /** A queue that is not empty gets a timer again. */
    lemma ArmValid(k: Key, deadline: nat)
      requires Valid(Some(k)) && Of(delayed, k) != []
      ensures Arm(Timer(k, deadline)).Valid(None)
    {
      hide HasTimer, Items;
      var q := Arm(Timer(k, deadline));
      forall j | j in q.delayed ensures q.delayed[j] != [] && HasTimer(q.timers, j) {
        MoreTimers(timers, Timer(k, deadline), j);
      }
      assert q.Conserved();
    }

    /** An empty queue is removed. */
    lemma RemoveValid(k: Key)
      requires Valid(Some(k)) && Of(delayed, k) == []
      ensures this.(delayed := delayed - {k}).Valid(None)
    {
      hide HasTimer, Items;
      forall j: Key ensures Of(submitted, j) == Items(Of(resolved, j)) + Of(delayed - {k}, j) {
        assert Of(submitted, j) == Items(Of(resolved, j)) + Of(delayed, j);
      }
    }

    /** A timer of a key without a queue is ignored. */
    lemma StaleValid(k: Key)
      requires Valid(Some(k)) && k !in delayed
      ensures Valid(None)
    {
      hide HasTimer, Items;
    }

    lemma DiscardValid(k: Key)
      requires Valid(None) && k in delayed
      ensures Discard(k).Valid(None)
    {
      hide Conserved, HasTimer;
      DiscardConserved(k);
    }

    /** A timer runs out: its queue may have lost its last one. */
    lemma ExpireValid(i: nat)
      requires Valid(None) && i < |timers|
      ensures this.(timers := Without(timers, i)).Valid(Some(timers[i].key))
    {
      hide HasTimer, Items;
      var q := this.(timers := Without(timers, i));
      forall j | j in q.delayed && Some(j) != Some(timers[i].key) ensures q.delayed[j] != [] && HasTimer(q.timers, j) {
        OthersKeepTimers(timers, i, j);
      }
      assert q.Conserved();
    }
  }
}
