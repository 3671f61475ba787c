/** The response limiter and the event queue of the RPC behaviour that it feeds. */
module ResponseLimiter {
  import opened Common
  import opened LimiterQueues
  import opened LimiterGate
  import RL = RateLimiter

  datatype Reply = Reply(connection: nat, substream: nat, response: nat)

  datatype QueuedResponse = QueuedResponse(key: Key, reply: Reply)

  /** Events of the behaviour: a response for a handler, or something else. */
  datatype RpcEvent = NotifyHandler(response: QueuedResponse) | OtherEvent(id: nat)

  function Notices(responses: seq<QueuedResponse>): seq<RpcEvent> {
    seq(|responses|, i requires 0 <= i < |responses| => NotifyHandler(responses[i]))
  }

  /** The responses of a key among events, in order. */
  function For(log: seq<RpcEvent>, k: Key): seq<Reply> {
    if log == [] then []
    else
      var e := log[|log| - 1];
      For(log[..|log| - 1], k) + if e.NotifyHandler? && e.response.key == k then [e.response.reply] else []
  }

  lemma ForSnoc(log: seq<RpcEvent>, e: RpcEvent, k: Key)
    ensures For(log + [e], k) == For(log, k) + if e.NotifyHandler? && e.response.key == k then [e.response.reply] else []
  {
    assert (log + [e])[..|log|] == log;
  }

  type Resolved = map<Key, seq<Fate<Reply>>>

  function Send(resolved: Resolved, r: QueuedResponse): Resolved {
    resolved[r.key := Of(resolved, r.key) + [Sent(r.reply)]]
  }

  /** The events so far are, per key, the responses let through, in order. */
  ghost predicate Delivered(log: seq<RpcEvent>, resolved: Resolved) {
    forall k: Key :: For(log, k) == SentItems(Of(resolved, k))
  }

  /** Each response let through has its instant. */
  ghost predicate Timely(resolved: Resolved, times: map<Key, seq<nat>>) {
    forall k: Key :: |Of(times, k)| == |SentItems(Of(resolved, k))|
  }

  lemma DeliveredSent(log: seq<RpcEvent>, resolved: Resolved, r: QueuedResponse)
    requires Delivered(log, resolved)
    ensures Delivered(log + [NotifyHandler(r)], Send(resolved, r))
  {
    hide For, SentItems;
    forall k: Key
      ensures For(log + [NotifyHandler(r)], k) == SentItems(Of(Send(resolved, r), k))
    {
      assert For(log, k) == SentItems(Of(resolved, k));
      ForSnoc(log, NotifyHandler(r), k);
      SentItemsSnoc(Of(resolved, r.key), Sent(r.reply));
    }
  }

  lemma TimelySent(resolved: Resolved, times: map<Key, seq<nat>>, r: QueuedResponse, now: nat)
    requires Timely(resolved, times)
    ensures Timely(Send(resolved, r), Noted(times, r.key, now))
  {
    hide SentItems;
    SentItemsSnoc(Of(resolved, r.key), Sent(r.reply));
    forall k: Key
      ensures |Of(Noted(times, r.key, now), k)| == |SentItems(Of(Send(resolved, r), k))|
    {
      assert |Of(times, k)| == |SentItems(Of(resolved, k))|;
    }
  }

  lemma DeliveredOther(log: seq<RpcEvent>, resolved: Resolved, id: nat)
    requires Delivered(log, resolved)
    ensures Delivered(log + [OtherEvent(id)], resolved)
  {
    hide For, SentItems;
    forall k: Key
      ensures For(log + [OtherEvent(id)], k) == SentItems(Of(resolved, k))
    {
      ForSnoc(log, OtherEvent(id), k);
    }
  }

  lemma DeliveredDropped(log: seq<RpcEvent>, resolved: Resolved, times: map<Key, seq<nat>>, k: Key, xs: seq<Reply>)
    requires Delivered(log, resolved)
    ensures Delivered(log, resolved[k := Of(resolved, k) + DroppedAll(xs)])
    ensures Timely(resolved, times) ==> Timely(resolved[k := Of(resolved, k) + DroppedAll(xs)], times)
  {
    hide For, SentItems;
    DroppedAreNotSent(Of(resolved, k), xs);
  }

  /** One token never exceeds a bucket. */
  ghost predicate Modest(gate: Gate) {
    forall p :: gate.params(p).t <= gate.params(p).tau
  }

  /** Buckets built from quotas are modest. */
  lemma QuotasAreModest(q: RL.Quota)
    requires q.maxTokens > 0 && RL.FromQuota(q).Some?
    ensures RL.FromQuota(q).value.t <= RL.FromQuota(q).value.tau
  {
    var p := RL.FromQuota(q).value;
    RL.MulMonotone(p.t, 1, q.maxTokens);
  }

  lemma OneTokenFits(gate: Gate, now: nat, k: Key)
    requires Modest(gate)
    ensures !gate.Decide(now, k, 1).TooLarge?
  {}

  /** The limiter refuses the key, and one timer is set for as long as it asks for. */
  ghost predicate Timed(timers: seq<Timer>, timers': seq<Timer>, gate: Gate, now: nat, k: Key) {
    exists wait :: wait > 0 && gate.Decide(now, k, 1) == RL.TooSoon(wait) && timers' == timers + [Timer(k, now + wait)]
  }

  ghost predicate GateOk(gate: Gate, traces: map<Protocol, Trace>, times: map<Key, seq<nat>>, clock: nat) {
    Modest(gate) && Traced(gate, traces, clock) && Counts(gate, traces, times)
  }

  /** Instants are only added, and those added are `now`. */
  ghost predicate Later(times: map<Key, seq<nat>>, times': map<Key, seq<nat>>, now: nat) {
    forall k: Key :: Of(times, k) <= Of(times', k) && AllAt(Of(times', k)[|Of(times, k)|..], now)
  }

  ghost predicate AllAt(ts: seq<nat>, now: nat) {
    forall i :: 0 <= i < |ts| ==> ts[i] == now
  }

  lemma LaterSame(times: map<Key, seq<nat>>, now: nat)
    ensures Later(times, times, now)
  {}

  lemma LaterNoted(times: map<Key, seq<nat>>, k: Key, now: nat)
    ensures Later(times, Noted(times, k, now), now)
  {}

  lemma LaterTwice(t: map<Key, seq<nat>>, t': map<Key, seq<nat>>, t'': map<Key, seq<nat>>, now: nat)
    requires Later(t, t', now) && Later(t', t'', now)
    ensures Later(t, t'', now)
  {
    hide AllAt;
    forall k: Key
      ensures Of(t, k) <= Of(t'', k) && AllAt(Of(t'', k)[|Of(t, k)|..], now)
    {
      var a, b, c := Of(t, k), Of(t', k), Of(t'', k);
      assert a <= b && b <= c && AllAt(b[|a|..], now) && AllAt(c[|b|..], now);
      assert c[|a|..] == b[|a|..] + c[|b|..];
      AllAtBoth(b[|a|..], c[|b|..], now);
    }
  }

  lemma AllAtBoth(x: seq<nat>, y: seq<nat>, now: nat)
    requires AllAt(x, now) && AllAt(y, now)
    ensures AllAt(x + y, now)
  {}

  class RpcResponses {
    /** Whether responses are limited at all. */
    const limited: bool
    var gate: Gate
    var delayedResponses: map<Key, seq<Reply>>
    var nextResponse: seq<Timer>
    var events: seq<RpcEvent>

    // History: what was submitted and what became of it, the uses of the limiter, and the events already handed out.
    ghost var submitted: map<Key, seq<Reply>>
    ghost var resolved: map<Key, seq<Fate<Reply>>>
    ghost var traces: map<Protocol, Trace>
    ghost var times: map<Key, seq<nat>>
    ghost var clock: nat
    ghost var handedOut: seq<RpcEvent>

    ghost function Queue(): Queues<Reply>
      reads this
    {
      Queues(delayedResponses, nextResponse, submitted, resolved)
    }

    /** `pending` are responses let through but not yet in the event queue. */
    ghost predicate ValidWith(skip: Option<Key>, pending: seq<QueuedResponse>)
      reads this
    {
      && Queue().Valid(skip) && GateOk(gate, traces, times, clock) && Delivered(handedOut + events + Notices(pending), resolved)
      && (if limited then Timely(resolved, times) else delayedResponses == map[] && nextResponse == [])
    }

    ghost predicate Valid()
      reads this
    {
      && Queue().Valid(None) && GateOk(gate, traces, times, clock) && Delivered(handedOut + events, resolved)
      && (if limited then Timely(resolved, times) else delayedResponses == map[] && nextResponse == [])
    }

    constructor (limited: bool, params: Protocol -> RL.Params)
      requires forall p :: params(p).t <= params(p).tau
      ensures Valid() && this.limited == limited && clock == 0 && submitted == map[] && gate.params == params
    {
      this.limited := limited;
      gate := Gate(params, map[]);
      delayedResponses, nextResponse, events := map[], [], [];
      submitted, resolved, traces, times, clock, handedOut := map[], map[], map[], map[], 0, [];
    }

    /** Asks the limiter for one token. A response that would never fit is let through. */
    method TryLimiter(now: nat, k: Key) returns (wait: Option<nat>)
      requires GateOk(gate, traces, times, clock) && clock <= now
      modifies this`gate, this`traces, this`times, this`clock
      ensures GateOk(gate, traces, times, clock) && clock == now && gate.params == old(gate.params)
      ensures wait.None? ==> times == Noted(old(times), k, now) && old(gate).Decide(now, k, 1).Accepted?
      ensures wait.Some? ==> times == old(times) && wait.value > 0 && old(gate).Decide(now, k, 1) == RL.TooSoon(wait.value) == gate.Decide(now, k, 1)
      ensures RefusalsStay(old(gate), gate, now, k)
    {
      hide Traced, Counts, RefusalsStay;
      AdmitKeepsRefusals(gate, now, k);
      OneTokenFits(gate, now, k);
      if gate.Decide(now, k, 1).TooSoon? {
        RefusedAgain(gate, now, k, 1);
      }
      AdmitTraced(gate, traces, clock, now, k, 1);
      AskedCounts(gate, traces, times, clock, now, k);
      SameParams(gate, gate.Admit(now, k, 1), Asked(traces, now, k, 1), if gate.Decide(now, k, 1).Accepted? then Noted(times, k, now) else times);
      hide Gate.Decide, Gate.Admit;
      var answer := gate.Decide(now, k, 1);
      times := if answer.Accepted? then Noted(times, k, now) else times;
      traces, clock := Asked(traces, now, k, 1), now;
      gate := gate.Admit(now, k, 1);
      wait := if answer.TooSoon? then Some(answer.wait) else None;
    }

    /** Submits a response: it goes ahead at once, or waits behind those of its key that already wait or for the limiter. */
    method Allows(now: nat, k: Key, reply: Reply) returns (ok: bool)
      requires Valid() && limited && clock <= now
      modifies this`gate, this`traces, this`times, this`clock, this`delayedResponses, this`nextResponse, this`submitted, this`resolved
      ensures ValidWith(None, if ok then [QueuedResponse(k, reply)] else [])
      ensures submitted == old(submitted)[k := Of(old(submitted), k) + [reply]]
      ensures ok <==> k !in old(delayedResponses) && old(gate).Decide(now, k, 1).Accepted?
      ensures delayedResponses == if ok then old(delayedResponses) else old(delayedResponses)[k := Of(old(delayedResponses), k) + [reply]]
      ensures if ok || k in old(delayedResponses) then nextResponse == old(nextResponse)
              else Timed(old(nextResponse), nextResponse, old(gate), now, k)
      ensures clock <= now && gate.params == old(gate.params) && Later(old(times), times, now) && Sends(old(resolved), resolved)
    {
      hide Queues.Valid, GateOk, Delivered, Timely, Gate.Decide, Later, Sends;
      NoNotices(handedOut + events);
      LaterSame(times, now);
      LaterNoted(times, k, now);
      SendsSame(resolved);
      SendsOne(resolved, k, reply);
      if k in delayedResponses {
        Queue().JoinValid(k, reply);
        delayedResponses := delayedResponses[k := delayedResponses[k] + [reply]];
        submitted := submitted[k := Of(submitted, k) + [reply]];
        return false;
      }
      ghost var before := times;
      var wait := TryLimiter(now, k);
      if wait.Some? {
        Queue().DelayValid(k, reply, now + wait.value);
        assert Of(delayedResponses, k) + [reply] == [reply];
        delayedResponses := delayedResponses[k := [reply]];
        nextResponse := nextResponse + [Timer(k, now + wait.value)];
        ok := false;
      } else {
        Queue().PassValid(k, reply, None);
        DeliveredSent(handedOut + events, resolved, QueuedResponse(k, reply));
        TimelySent(resolved, before, QueuedResponse(k, reply), now);
        OneNotice(QueuedResponse(k, reply));
        resolved := Send(resolved, QueuedResponse(k, reply));
        ok := true;
      }
      submitted := submitted[k := Of(submitted, k) + [reply]];
    }

    /** Without a limiter every response goes ahead. */
    method LetThrough(k: Key, reply: Reply)
      requires Valid() && !limited
      modifies this`submitted, this`resolved
      ensures ValidWith(None, [QueuedResponse(k, reply)]) && Sends(old(resolved), resolved)
      ensures submitted == old(submitted)[k := Of(old(submitted), k) + [reply]]
    {
      hide Queues.Valid, GateOk, Delivered, Sends;
      SendsOne(resolved, k, reply);
      Queue().PassValid(k, reply, None);
      DeliveredSent(handedOut + events, resolved, QueuedResponse(k, reply));
      OneNotice(QueuedResponse(k, reply));
      resolved := Send(resolved, QueuedResponse(k, reply));
      submitted := submitted[k := Of(submitted, k) + [reply]];
    }

    /** Submits a response and puts it into the event queue if it goes ahead. */
    method SendResponseInner(now: nat, k: Key, reply: Reply)
      requires Valid() && clock <= now
      modifies this`gate, this`traces, this`times, this`clock, this`delayedResponses, this`nextResponse, this`submitted, this`resolved, this`events
      ensures Valid() && submitted == old(submitted)[k := Of(old(submitted), k) + [reply]] && clock <= now
      ensures Later(old(times), times, now) && Sends(old(resolved), resolved) && gate.params == old(gate.params)
      ensures events == old(events) + if !limited || (k !in old(delayedResponses) && old(gate).Decide(now, k, 1).Accepted?)
                                      then [NotifyHandler(QueuedResponse(k, reply))] else []
    {
      hide Queues.Valid, GateOk, Delivered, Timely, Gate.Decide, Later, Sends;
      var ok := true;
      LaterSame(times, now);
      if limited {
        ok := Allows(now, k, reply);
      } else {
        LetThrough(k, reply);
      }
      NoNotices(handedOut + events);
      if ok {
        OneNotice(QueuedResponse(k, reply));
        assert handedOut + (events + [NotifyHandler(QueuedResponse(k, reply))]) == handedOut + events + [NotifyHandler(QueuedResponse(k, reply))];
        events := events + [NotifyHandler(QueuedResponse(k, reply))];
      }
    }

    /** The rest of the behaviour puts its own events into the same queue. */
    method PushOther(id: nat)
      requires Valid()
      modifies this`events
      ensures Valid() && events == old(events) + [OtherEvent(id)]
    {
      hide Queues.Valid, GateOk, Delivered, Timely;
      DeliveredOther(handedOut + events, resolved, id);
      assert handedOut + (events + [OtherEvent(id)]) == handedOut + events + [OtherEvent(id)];
      events := events + [OtherEvent(id)];
    }

    /** Takes the head of a queue that the limiter has let through. */
    method ReleaseHead(now: nat, k: Key, pending: seq<QueuedResponse>, ghost before: map<Key, seq<nat>>) returns (pending': seq<QueuedResponse>)
      requires Queue().Valid(Some(k)) && Of(delayedResponses, k) != []
      requires Delivered(handedOut + events + Notices(pending), resolved) && Timely(resolved, before) && times == Noted(before, k, now)
      modifies this`delayedResponses, this`resolved
      ensures Queue().Valid(Some(k)) && Delivered(handedOut + events + Notices(pending'), resolved) && Timely(resolved, times)
      ensures Sends(old(resolved), resolved)
      ensures pending' == pending + [QueuedResponse(k, old(delayedResponses)[k][0])]
      ensures delayedResponses == old(delayedResponses)[k := old(delayedResponses)[k][1..]]
    {
      hide Queues.Valid, Delivered, Timely, Sends;
      var r := QueuedResponse(k, delayedResponses[k][0]);
      Queue().ReleaseValid(k);
      DeliveredSent(handedOut + events + Notices(pending), resolved, r);
      TimelySent(resolved, before, r, now);
      NoticesSnoc(handedOut + events, pending, r);
      SendsOne(resolved, k, r.reply);
      resolved := Send(resolved, r);
      delayedResponses := delayedResponses[k := delayedResponses[k][1..]];
      pending' := pending + [r];
    }

    /** The timer of a key ran out: responses go ahead in order until the limiter refuses one. */
    method DrainKey(now: nat, k: Key, pending0: seq<QueuedResponse>) returns (pending: seq<QueuedResponse>)
      requires ValidWith(Some(k), pending0) && limited && k in delayedResponses && clock <= now
      modifies this`gate, this`traces, this`times, this`clock, this`delayedResponses, this`nextResponse, this`resolved
      ensures ValidWith(None, pending) && clock <= now && gate.params == old(gate.params)
      ensures Later(old(times), times, now) && Sends(old(resolved), resolved)
      ensures if k in delayedResponses then Timed(old(nextResponse), nextResponse, gate, now, k) else nextResponse == old(nextResponse)
      ensures RefusalsStay(old(gate), gate, now, k) && delayedResponses.Keys - {k} == old(delayedResponses).Keys - {k}
    {
      hide Queues.Valid, GateOk, Delivered, Timely, Gate.Decide, Later, Sends;
      pending := pending0;
      LaterSame(times, now);
      SendsSame(resolved);
      while delayedResponses[k] != []
        invariant k in delayedResponses && ValidWith(Some(k), pending) && clock <= now
        invariant nextResponse == old(nextResponse) && gate.params == old(gate.params)
        invariant RefusalsStay(old(gate), gate, now, k) && delayedResponses.Keys == old(delayedResponses).Keys
        invariant Later(old(times), times, now) && Sends(old(resolved), resolved)
        decreases |delayedResponses[k]|
      {
        ghost var before, sent := times, resolved;
        LaterNoted(times, k, now);
        LaterTwice(old(times), times, Noted(times, k, now), now);
        var wait := TryLimiter(now, k);
        if wait.Some? {
          Queue().ArmValid(k, now + wait.value);
          nextResponse := nextResponse + [Timer(k, now + wait.value)];
          return;
        }
        pending := ReleaseHead(now, k, pending, before);
        SendsTwice(old(resolved), sent, resolved);
      }
      Queue().RemoveValid(k);
      delayedResponses := delayedResponses - {k};
    }

    /** Takes a timer that has run out, if there is one. */
    method PollExpired(now: nat) returns (t: Option<Timer>)
      requires Queue().Valid(None)
      modifies this`nextResponse
      ensures t.None? ==> nextResponse == old(nextResponse) && forall i :: 0 <= i < |nextResponse| ==> nextResponse[i].deadline > now
      ensures t.Some? ==> Queue().Valid(Some(t.value.key)) && Due(nextResponse, now) < Due(old(nextResponse), now)
      ensures forall u :: u in old(nextResponse) ==> u in nextResponse || t == Some(u)
    {
      hide Queues.Valid, Due;
      ghost var i;
      var rest;
      t, rest, i := TakeExpired(nextResponse, now);
      if t.Some? {
        Queue().ExpireValid(i);
        nextResponse := rest;
      }
    }

    /** Handles every timer that has run out. What still waits afterwards waits for a later instant. */
    method PollReady(now: nat, pruneDue: bool) returns (responses: seq<QueuedResponse>)
      requires Valid() && limited && clock <= now
      modifies this`gate, this`traces, this`times, this`clock, this`delayedResponses, this`nextResponse, this`resolved
      ensures ValidWith(None, responses) && clock <= now && gate.params == old(gate.params)
      ensures Later(old(times), times, now) && Sends(old(resolved), resolved)
      ensures forall i :: 0 <= i < |nextResponse| ==> nextResponse[i].deadline > now
      ensures Refused(old(nextResponse), delayedResponses, gate, now)
    {
      hide Queues.Valid, GateOk, Delivered, Timely, Due, Later, Sends, RefusedOrDue, Refused, Gate.Decide, Gate.Prune, RefusalsStay;
      RefusedAtFirst(nextResponse, delayedResponses, gate, now);
      NoNotices(handedOut + events);
      LaterSame(times, now);
      SendsSame(resolved);
      responses := [];
      while true
        invariant ValidWith(None, responses) && clock <= now && gate.params == old(gate.params)
        invariant Later(old(times), times, now) && Sends(old(resolved), resolved)
        invariant RefusedOrDue(old(nextResponse), nextResponse, delayedResponses, gate, now)
        decreases Due(nextResponse, now)
      {
        ghost var armed, waiting, asked := nextResponse, delayedResponses, gate;
        var expired := PollExpired(now);
        if expired.None? {
          RefusedAtLast(old(nextResponse), nextResponse, delayedResponses, gate, now);
          break;
        }
        var k := expired.value.key;
        if k in delayedResponses {
          ghost var timers, before, sent := nextResponse, times, resolved;
          responses := DrainKey(now, k, responses);
          LaterTwice(old(times), before, times, now);
          SendsTwice(old(resolved), sent, resolved);
          LaterIsNotDue(timers, nextResponse, k, now);
        } else {
          Queue().StaleValid(k);
          RefusalsStayAsTheyAre(gate, now, k);
        }
        RefusedNext(old(nextResponse), armed, nextResponse, waiting, delayedResponses, asked, gate, now, expired.value);
      }
      if pruneDue {
        RefusedAfterPrune(old(nextResponse), delayedResponses, gate, now);
        PruneOk(gate, traces, times, clock, now);
        traces, clock := PrunedTraces(traces, now), now;
        gate := gate.Prune(now);
      }
    }

    /** Released responses join the event queue. */
    method QueueReleased(now: nat, pruneDue: bool)
      requires Valid() && clock <= now
      modifies this`gate, this`traces, this`times, this`clock, this`delayedResponses, this`nextResponse, this`resolved, this`events
      ensures Valid() && gate.params == old(gate.params) && clock <= now && old(events) <= events
      ensures Later(old(times), times, now) && Sends(old(resolved), resolved)
      ensures forall i :: 0 <= i < |nextResponse| ==> nextResponse[i].deadline > now
      ensures Refused(old(nextResponse), delayedResponses, gate, now)
    {
      hide Queues.Valid, GateOk, Delivered, Timely, Later, Sends;
      LaterSame(times, now);
      SendsSame(resolved);
      if limited {
        var responses := PollReady(now, pruneDue);
        assert handedOut + (events + Notices(responses)) == handedOut + events + Notices(responses);
        events := events + Notices(responses);
      }
    }

    /** A poll: released responses and then a request that is ready join the event queue, whose oldest event is handed out. */
    method Poll(now: nat, pruneDue: bool, request: Option<nat>) returns (e: Option<RpcEvent>)
      requires Valid() && clock <= now
      modifies this`gate, this`traces, this`times, this`clock, this`delayedResponses, this`nextResponse, this`resolved, this`events, this`handedOut
      ensures Valid() && gate.params == old(gate.params) && clock <= now
      ensures Later(old(times), times, now) && Sends(old(resolved), resolved)
      ensures forall i :: 0 <= i < |nextResponse| ==> nextResponse[i].deadline > now
      ensures Refused(old(nextResponse), delayedResponses, gate, now)
      ensures handedOut == old(handedOut) + (if e.Some? then [e.value] else []) && old(handedOut + events) <= handedOut + events
      ensures request.Some? ==> e.Some? && (handedOut + events)[|handedOut + events| - 1] == OtherEvent(request.value)
      ensures e.None? ==> events == []
    {
      hide Queues.Valid, GateOk, Delivered, Timely, Later, Sends, Refused;
      QueueReleased(now, pruneDue);
      if request.Some? {
        PushOther(request.value);
      }
      if events != [] {
        e := Some(events[0]);
        assert handedOut + [events[0]] + events[1..] == handedOut + events;
        handedOut := handedOut + [events[0]];
        events := events[1..];
      } else {
        e := None;
      }
    }

    /** Gives up the queue of a key. */
    method DropQueue(k: Key)
      requires Valid() && k in delayedResponses
      modifies this`delayedResponses, this`resolved
      ensures Valid() && delayedResponses == old(delayedResponses) - {k}
      ensures forall j: Key :: if j == k then Of(old(resolved), j) <= Of(resolved, j) else Of(resolved, j) == Of(old(resolved), j)
    {
      hide Queues.Valid, GateOk, Delivered, Timely, DroppedAll;
      Queue().DiscardValid(k);
      DeliveredDropped(handedOut + events, resolved, times, k, delayedResponses[k]);
      resolved := resolved[k := Of(resolved, k) + DroppedAll(delayedResponses[k])];
      delayedResponses := delayedResponses - {k};
    }

    /** A peer disconnected: the responses that wait for it are given up. Its timers stay and will find nothing. */
    method PeerDisconnected(peer: PeerId)
      requires Valid()
      modifies this`delayedResponses, this`resolved
      ensures Valid()
      ensures delayedResponses == map k | k in old(delayedResponses) && k.0 != peer :: old(delayedResponses)[k]
      ensures Grows(old(resolved), resolved) && forall k: Key :: k.0 != peer ==> Of(resolved, k) == Of(old(resolved), k)
    {
      hide Queues.Valid, GateOk, Delivered, Timely;
      var todo := set k | k in delayedResponses && k.0 == peer;
      while todo != {}
        invariant Valid() && todo <= delayedResponses.Keys && (forall k :: k in todo ==> k.0 == peer)
        invariant forall k :: k in delayedResponses && k.0 == peer ==> k in todo
        invariant forall k :: k in delayedResponses ==> k in old(delayedResponses) && delayedResponses[k] == old(delayedResponses)[k]
        invariant forall k :: k in old(delayedResponses) && k.0 != peer ==> k in delayedResponses
        invariant Grows(old(resolved), resolved) && forall k: Key :: k.0 != peer ==> Of(resolved, k) == Of(old(resolved), k)
        decreases |todo|
      {
        var k :| k in todo;
        DropQueue(k);
        todo := todo - {k};
      }
    }
  }

  // ----- What still waits after its timer ran out -----

  /** Every key of a timer that has run out, and that still waits, is refused by the limiter at this instant. */
  ghost predicate Refused(timers: seq<Timer>, delayed: map<Key, seq<Reply>>, gate: Gate, now: nat) {
    forall t :: t in timers && t.deadline <= now && t.key in delayed ==> gate.Decide(now, t.key, 1).TooSoon?
  }

  /** The same, except for timers still to be handled. */
  ghost predicate RefusedOrDue(timers0: seq<Timer>, timers: seq<Timer>, delayed: map<Key, seq<Reply>>, gate: Gate, now: nat) {
    forall t :: t in timers0 && t.deadline <= now && t.key in delayed ==> t in timers || gate.Decide(now, t.key, 1).TooSoon?
  }

  lemma RefusedAtFirst(timers: seq<Timer>, delayed: map<Key, seq<Reply>>, gate: Gate, now: nat)
    ensures RefusedOrDue(timers, timers, delayed, gate, now)
  {}

  lemma RefusedAtLast(timers0: seq<Timer>, timers: seq<Timer>, delayed: map<Key, seq<Reply>>, gate: Gate, now: nat)
    requires RefusedOrDue(timers0, timers, delayed, gate, now) && forall i :: 0 <= i < |timers| ==> timers[i].deadline > now
    ensures Refused(timers0, delayed, gate, now)
  {
    hide Gate.Decide;
  }

  lemma RefusalsStayAsTheyAre(gate: Gate, now: nat, k: Key)
    ensures RefusalsStay(gate, gate, now, k)
  {}

  lemma RefusedNext(timers0: seq<Timer>, timers: seq<Timer>, timers': seq<Timer>, delayed: map<Key, seq<Reply>>, delayed': map<Key, seq<Reply>>,
                    gate: Gate, gate': Gate, now: nat, t: Timer)
    requires RefusedOrDue(timers0, timers, delayed, gate, now) && (forall u :: u in timers ==> u in timers' || u == t)
    requires RefusalsStay(gate, gate', now, t.key) && delayed'.Keys - {t.key} == delayed.Keys - {t.key}
    requires t.key in delayed' ==> gate'.Decide(now, t.key, 1).TooSoon?
    ensures RefusedOrDue(timers0, timers', delayed', gate', now)
  {
    hide Gate.Decide;
    forall u | u in timers0 && u.deadline <= now && u.key in delayed' ensures u in timers' || gate'.Decide(now, u.key, 1).TooSoon? {
      if u.key != t.key {
        assert u.key in delayed'.Keys - {t.key};
      }
    }
  }

  lemma RefusedAfterPrune(timers: seq<Timer>, delayed: map<Key, seq<Reply>>, gate: Gate, now: nat)
    requires Refused(timers, delayed, gate, now)
    ensures Refused(timers, delayed, gate.Prune(now), now)
  {
    hide Gate.Decide, Gate.Prune;
    forall t | t in timers && t.deadline <= now && t.key in delayed ensures gate.Prune(now).Decide(now, t.key, 1).TooSoon? {
      RefusedAllTheSame(gate, now, t.key, 1, t.key, 1);
    }
  }

  lemma PruneOk(gate: Gate, traces: map<Protocol, Trace>, times: map<Key, seq<nat>>, clock: nat, now: nat)
    requires GateOk(gate, traces, times, clock) && clock <= now
    ensures GateOk(gate.Prune(now), PrunedTraces(traces, now), times, now) && gate.Prune(now).params == gate.params
  {
    hide Traced, Counts;
    PruneTraced(gate, traces, clock, now);
    PrunedCounts(gate, traces, times, now);
  }

  lemma LaterIsNotDue(timers: seq<Timer>, timers': seq<Timer>, k: Key, now: nat)
    requires timers' == timers || exists deadline :: deadline > now && timers' == timers + [Timer(k, deadline)]
    ensures Due(timers', now) == Due(timers, now)
  {
    if timers' != timers {
      var deadline :| deadline > now && timers' == timers + [Timer(k, deadline)];
      DueSnoc(timers, Timer(k, deadline), now);
    }
  }

  // ----- What the invariant means -----

  /**
    From any point of a key's history after which no disconnect dropped anything, the responses submitted are those
    in the event stream and then those waiting, in order.
  */
  lemma OrderIsKept(q: Queues<Reply>, log: seq<RpcEvent>, k: Key, n: nat)
    requires q.Valid(None) && Delivered(log, q.resolved) && n <= |Of(q.resolved, k)| && NoDrops(Of(q.resolved, k), n)
    ensures n <= |Of(q.submitted, k)| && |SentItems(Of(q.resolved, k)[..n])| <= |For(log, k)|
    ensures Of(q.submitted, k)[n..] == For(log, k)[|SentItems(Of(q.resolved, k)[..n])|..] + Of(q.delayed, k)
    ensures k in q.delayed ==> q.delayed[k] != [] && HasTimer(q.timers, k)
  {
    hide For, SentItems;
    var fates := Of(q.resolved, k);
    assert fates == fates[..n] + fates[n..];
    SentItemsConcat(fates[..n], fates[n..]);
    AllSent(fates[n..]);
    assert Of(q.submitted, k) == Items(fates) + Of(q.delayed, k);
    assert Items(fates)[n..] == Items(fates[n..]);
  }

  /** So between two states with no disconnect in between, a reconnected peer's responses go out in the order they were submitted. */
  lemma OrderSince(q0: Queues<Reply>, log0: seq<RpcEvent>, q: Queues<Reply>, log: seq<RpcEvent>, k: Key)
    requires Delivered(log0, q0.resolved) && q.Valid(None) && Delivered(log, q.resolved) && Sends(q0.resolved, q.resolved)
    ensures |Of(q0.resolved, k)| <= |Of(q.submitted, k)| && |For(log0, k)| <= |For(log, k)|
    ensures Of(q.submitted, k)[|Of(q0.resolved, k)|..] == For(log, k)[|For(log0, k)|..] + Of(q.delayed, k)
  {
    hide For, SentItems;
    var n := |Of(q0.resolved, k)|;
    assert Of(q0.resolved, k) <= Of(q.resolved, k) && NoDrops(Of(q.resolved, k), n);
    assert Of(q.resolved, k)[..n] == Of(q0.resolved, k);
    OrderIsKept(q, log, k, n);
  }

  /** The responses of a key released in any window [a, b] number n with n * t <= tau + (b - a). */
  lemma ReleasesAreBounded(gate: Gate, traces: map<Protocol, Trace>, times: map<Key, seq<nat>>, clock: nat, k: Key, a: nat, b: nat)
    requires GateOk(gate, traces, times, clock) && clock + gate.params(k.1).tau < RL.U64_MAX && a <= b
    ensures InWindow(Of(times, k), a, b) * gate.params(k.1).t <= gate.params(k.1).tau + (b - a)
  {
    hide Traced, Counts, InWindow;
    WindowIsBounded(gate, traces, times, clock, k, a, b);
  }

  lemma NoNotices(log: seq<RpcEvent>)
    ensures log + Notices([]) == log
  {}

  lemma OneNotice(r: QueuedResponse)
    ensures Notices([r]) == [NotifyHandler(r)]
  {}

  lemma NoticesSnoc(log: seq<RpcEvent>, pending: seq<QueuedResponse>, r: QueuedResponse)
    ensures log + Notices(pending + [r]) == log + Notices(pending) + [NotifyHandler(r)]
  {}

  lemma SameParams(gate: Gate, gate': Gate, traces: map<Protocol, Trace>, times: map<Key, seq<nat>>)
    requires gate'.params == gate.params && Counts(gate, traces, times)
    ensures Counts(gate', traces, times)
  {
    hide RL.Spent, InWindow;
  }
}
