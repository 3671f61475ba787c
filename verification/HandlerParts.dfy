/** The invariants of the handler's parts, as predicates over values, and how each kind of change keeps them. */
module HandlerParts {
  import opened Common
  import opened HandlerModel

  /** What was taken for sending on an inbound substream, what was queued, and the responses asked for. */
  datatype InboundHistory = InboundHistory(taken: seq<Message>, queued: seq<Message>, budget: nat)

  /** The request of an outbound substream, whether it came after deactivation, and its events. */
  datatype OutboundHistory = OutboundHistory(asked: Request, late: bool, log: seq<Kind>)

  // ----- Inbound substreams -----

  datatype InboundPart = InboundPart(
    substreams: map<SubstreamId, InboundInfo>,
    delay: DelayQueue,
    history: map<SubstreamId, InboundHistory>,
    current: SubstreamId,
    nextKey: DelayKey)
  {
    /** The timers are exactly the entries whose delay key is set. */
    ghost predicate Timers() {
      && (forall k :: k in delay ==> k < nextKey && delay[k] in substreams && substreams[delay[k]].delayKey == Some(k))
      && (forall id :: id in substreams && substreams[id].delayKey.Some? ==>
            substreams[id].delayKey.value in delay && delay[substreams[id].delayKey.value] == id)
    }

    ghost predicate Entries() {
      && (forall id :: id in substreams ==>
            id in history && InboundOk(substreams[id], history[id].taken, history[id].queued, history[id].budget))
      && (forall id :: id in history ==>
            id < current && InboundHistoryOk(history[id].taken, history[id].queued, history[id].budget))
    }

    ghost predicate Valid() {
      Timers() && Entries() && |substreams| <= MAX_INBOUND_SUBSTREAMS
    }

    function Set(id: SubstreamId, info: InboundInfo, h: InboundHistory): InboundPart {
      this.(substreams := substreams[id := info], history := history[id := h])
    }

    function Close(id: SubstreamId, h: InboundHistory): InboundPart
      requires id in substreams
    {
      this.(substreams := substreams - {id}, delay := WithoutKey(delay, substreams[id].delayKey), history := history[id := h])
    }

    function Open(protocol: Protocol, budget: nat): InboundPart {
      this.(substreams := substreams[current := InboundInfo(Idle, [], protocol, budget, Some(nextKey))],
            delay := delay[nextKey := current], nextKey := nextKey + 1,
            history := history[current := InboundHistory([], [], budget)], current := current + 1)
    }

    function Expire(k: DelayKey): InboundPart
      requires k in delay && delay[k] in substreams
    {
      this.(substreams := substreams[delay[k] := substreams[delay[k]].(delayKey := None)], delay := delay - {k})
    }

    lemma Known(id: SubstreamId)
      requires Valid() && id in substreams
      ensures id in history && InboundOk(substreams[id], history[id].taken, history[id].queued, history[id].budget)
      ensures substreams[id].delayKey.Some? ==> substreams[id].delayKey.value in delay
    {}

    lemma AllKnown()
      requires Valid()
      ensures substreams.Keys <= history.Keys
    {
      hide InboundOk, InboundHistoryOk;
    }

    lemma NoTimer()
      requires Valid() && substreams == map[]
      ensures delay == map[]
    {}

    /** A timer names the one substream that has its key. */
    lemma Named(k: DelayKey)
      requires Valid() && k in delay
      ensures delay[k] in substreams && substreams[delay[k]].delayKey == Some(k)
      ensures forall id :: id in substreams && substreams[id].delayKey == Some(k) ==> id == delay[k]
    {
      hide Entries;
    }

    lemma SetTimers(id: SubstreamId, info: InboundInfo, h: InboundHistory)
      requires Timers() && id in substreams && info.delayKey == substreams[id].delayKey
      ensures Set(id, info, h).Timers()
    {}

    lemma SetEntries(id: SubstreamId, info: InboundInfo, h: InboundHistory)
      requires Entries() && id in substreams && InboundOk(info, h.taken, h.queued, h.budget)
      ensures Set(id, info, h).Entries()
    {
      hide InboundOk, InboundHistoryOk;
      OkHasOkHistory(info, h.taken, h.queued, h.budget);
    }

    lemma SetValid(id: SubstreamId, info: InboundInfo, h: InboundHistory)
      requires Valid() && id in substreams
      requires info.delayKey == substreams[id].delayKey && InboundOk(info, h.taken, h.queued, h.budget)
      ensures Set(id, info, h).Valid()
    {
      hide Timers, Entries, InboundOk;
      SetTimers(id, info, h);
      SetEntries(id, info, h);
      SameSize(substreams, id, info);
    }

    lemma CloseTimers(id: SubstreamId, h: InboundHistory)
      requires Timers() && id in substreams
      ensures Close(id, h).Timers()
    {}

    lemma CloseEntries(id: SubstreamId, h: InboundHistory)
      requires Entries() && id in substreams && InboundHistoryOk(h.taken, h.queued, h.budget)
      ensures Close(id, h).Entries()
    {
      hide InboundOk, InboundHistoryOk;
    }

    lemma CloseValid(id: SubstreamId, h: InboundHistory)
      requires Valid() && id in substreams && InboundHistoryOk(h.taken, h.queued, h.budget)
      ensures Close(id, h).Valid()
    {
      hide Timers, Entries, InboundHistoryOk;
      CloseTimers(id, h);
      CloseEntries(id, h);
      SmallerSize(substreams, id);
    }

    lemma CurrentIsNew()
      requires Entries()
      ensures current !in substreams
    {
      hide InboundOk, InboundHistoryOk;
      assert current !in history;
    }

    lemma CurrentIsUnknown()
      requires Valid()
      ensures current !in history
    {}

    lemma OpenTimers(protocol: Protocol, budget: nat)
      requires Timers() && current !in substreams
      ensures Open(protocol, budget).Timers()
    {}

    lemma OpenEntries(protocol: Protocol, budget: nat)
      requires Entries() && budget > 0
      ensures Open(protocol, budget).Entries()
    {
      assert InboundOk(InboundInfo(Idle, [], protocol, budget, Some(nextKey)), [], [], budget);
      hide InboundOk;
    }

    lemma OpenValid(protocol: Protocol, budget: nat)
      requires Valid() && budget > 0 && |substreams| < MAX_INBOUND_SUBSTREAMS
      ensures Open(protocol, budget).Valid()
    {
      CurrentIsNew();
      hide Timers, Entries, InboundOk, InboundHistoryOk;
      OpenTimers(protocol, budget);
      OpenEntries(protocol, budget);
      LargerSize(substreams, current, InboundInfo(Idle, [], protocol, budget, Some(nextKey)));
    }

    lemma ExpireTimers(k: DelayKey)
      requires Timers() && k in delay
      ensures Expire(k).Timers()
    {}

    lemma ExpireEntries(k: DelayKey)
      requires Entries() && k in delay && delay[k] in substreams
      ensures Expire(k).Entries()
    {
      var id := delay[k];
      assert InboundOk(substreams[id].(delayKey := None), history[id].taken, history[id].queued, history[id].budget);
      hide InboundOk, InboundHistoryOk;
    }

    lemma ExpireValid(k: DelayKey)
      requires Valid() && k in delay
      ensures delay[k] in substreams && Expire(k).Valid()
    {
      ExpireTimers(k);
      ExpireEntries(k);
      SameSize(substreams, delay[k], substreams[delay[k]].(delayKey := None));
    }

    /** Ids are skipped, and the other queue takes keys. */
    lemma LaterValid(current': SubstreamId, nextKey': DelayKey)
      requires Valid() && current <= current' && nextKey <= nextKey'
      ensures this.(current := current', nextKey := nextKey').Valid()
    {
      hide InboundOk, InboundHistoryOk;
    }
  }

  lemma SameSize<V>(m: map<SubstreamId, V>, id: SubstreamId, v: V)
    requires id in m
    ensures |m[id := v]| == |m|
  {
    assert m[id := v].Keys == m.Keys;
  }

  lemma SmallerSize<V>(m: map<SubstreamId, V>, id: SubstreamId)
    requires id in m
    ensures |m - {id}| == |m| - 1
  {
    assert (m - {id}).Keys == m.Keys - {id};
  }

  lemma LargerSize<V>(m: map<SubstreamId, V>, id: SubstreamId, v: V)
    requires id !in m
    ensures |m[id := v]| == |m| + 1
  {
    assert m[id := v].Keys == m.Keys + {id};
  }

  function WithoutKey(delay: DelayQueue, k: Option<DelayKey>): DelayQueue {
    match k case Some(key) => delay - {key} case None => delay
  }

  // ----- Outbound substreams -----

  /** What is reported of a substream as it opens. */
  function OpenedHistory(asked: Request, late: bool): OutboundHistory {
    OutboundHistory(asked, late, if late then [E] else [])
  }

  datatype OutboundPart = OutboundPart(
    substreams: map<SubstreamId, OutboundInfo>,
    delay: DelayQueue,
    history: map<SubstreamId, OutboundHistory>,
    current: SubstreamId,
    nextKey: DelayKey,
    state: HandlerState)
  {
    /** Every substream has exactly one timer, and every timer belongs to a substream. */
    ghost predicate Timers() {
      && (forall k :: k in delay ==> k < nextKey && delay[k] in substreams && substreams[delay[k]].delayKey == k)
      && (forall id :: id in substreams ==> substreams[id].delayKey in delay && delay[substreams[id].delayKey] == id)
    }

    ghost predicate Entries() {
      && (forall id :: id in substreams ==>
            id in history && OutboundOk(substreams[id], history[id].asked, history[id].late, history[id].log))
      && (forall id :: id in history ==>
            && id < current && Sensible(history[id].asked) && history[id].asked.maxResponses > 0
            && (history[id].late ==> state.Deactivated?)
            && OutboundHistoryOk(history[id].asked, history[id].late, history[id].log))
    }

    ghost predicate Valid() {
      Timers() && Entries()
    }

    function Set(id: SubstreamId, info: OutboundInfo, log: seq<Kind>): OutboundPart
      requires id in history
    {
      this.(substreams := substreams[id := info], history := history[id := history[id].(log := log)])
    }

    function Close(id: SubstreamId, log: seq<Kind>): OutboundPart
      requires id in substreams && id in history
    {
      this.(substreams := substreams - {id}, delay := delay - {substreams[id].delayKey},
            history := history[id := history[id].(log := log)])
    }

    function Open(asked: Request, late: bool, reqId: ReqId): OutboundPart {
      this.(substreams := substreams[current := NewOutbound(asked, nextKey, reqId)],
            delay := delay[nextKey := current], nextKey := nextKey + 1,
            history := history[current := OpenedHistory(asked, late)], current := current + 1)
    }

    lemma Known(id: SubstreamId)
      requires Valid() && id in substreams
      ensures id in history && Sensible(history[id].asked) && history[id].asked.maxResponses > 0
      ensures history[id].late ==> state.Deactivated?
      ensures OutboundOk(substreams[id], history[id].asked, history[id].late, history[id].log)
      ensures substreams[id].delayKey in delay && delay[substreams[id].delayKey] == id
    {}

    /** A timer that runs out belongs to a substream that can still report it. */
    lemma Expiring(k: DelayKey)
      requires Valid() && k in delay
      ensures delay[k] in substreams && delay[k] in history && substreams[delay[k]].delayKey == k
      ensures OutboundHistoryOk(history[delay[k]].asked, history[delay[k]].late, history[delay[k]].log + [E])
    {
      var id := delay[k];
      assert OutboundOk(substreams[id], history[id].asked, history[id].late, history[id].log);
      TimeoutOk(substreams[id], history[id].asked, history[id].late, history[id].log);
    }

    lemma NoTimer()
      requires Valid() && substreams == map[]
      ensures delay == map[]
    {}

    /** A single substream has the single timer. */
    lemma OneTimer(id: SubstreamId)
      requires Valid() && substreams.Keys == {id}
      ensures delay == map[substreams[id].delayKey := id]
    {
      hide OutboundOk, OutboundHistoryOk;
    }

    lemma SetValid(id: SubstreamId, info: OutboundInfo, log: seq<Kind>)
      requires Valid() && id in substreams && id in history && info.delayKey == substreams[id].delayKey
      requires OutboundOk(info, history[id].asked, history[id].late, log)
      ensures Set(id, info, log).Valid()
    {
      hide OutboundOk, OutboundHistoryOk;
      OutboundOkHasOkHistory(info, history[id].asked, history[id].late, log);
    }

    lemma CloseValid(id: SubstreamId, log: seq<Kind>)
      requires Valid() && id in substreams && id in history
      requires OutboundHistoryOk(history[id].asked, history[id].late, log)
      ensures Close(id, log).Valid()
    {
      hide OutboundOk, OutboundHistoryOk;
    }

    lemma OpenTimers(asked: Request, late: bool, reqId: ReqId)
      requires Timers() && current !in substreams
      ensures Open(asked, late, reqId).Timers()
    {}

    lemma OpenEntries(asked: Request, late: bool, reqId: ReqId)
      requires Entries() && Sensible(asked) && asked.maxResponses > 0 && (late ==> state.Deactivated?)
      ensures Open(asked, late, reqId).Entries()
    {
      var log := if late then [E] else [];
      NewOutboundOk(asked, late, nextKey, reqId);
      OutboundOkHasOkHistory(NewOutbound(asked, nextKey, reqId), asked, late, log);
      hide OutboundOk, OutboundHistoryOk, NewOutbound;
    }

    lemma OpenValid(asked: Request, late: bool, reqId: ReqId)
      requires Valid() && Sensible(asked) && asked.maxResponses > 0 && (late ==> state.Deactivated?)
      ensures current !in history && current !in substreams && Open(asked, late, reqId).Valid()
    {
      assert current !in substreams by { assert current !in history; }
      OpenTimers(asked, late, reqId);
      OpenEntries(asked, late, reqId);
    }

    /** The state moves on, and the other queue takes keys. */
    lemma LaterValid(state': HandlerState, nextKey': DelayKey)
      requires Valid() && Forward(state, state') && nextKey <= nextKey'
      ensures this.(state := state', nextKey := nextKey').Valid()
    {
      hide OutboundOk, OutboundHistoryOk;
    }
  }

  // ----- Reported events -----

  /** Events already returned to the behaviour, then those still queued. */
  datatype ReportPart = ReportPart(
    history: map<SubstreamId, OutboundHistory>,
    state: HandlerState,
    returned: seq<Event>,
    queued: seq<Event>)
  {
    /** Each log is what its substream reported so far, in order. */
    ghost predicate Tied() {
      forall s :: Project(returned + queued, s) == Log(s)
    }

    function Log(s: SubstreamId): seq<Kind> {
      if s in history then history[s].log else []
    }

    /** Responses are handed out at once. */
    ghost predicate NoneWaits() {
      forall e :: e in queued ==> !e.Response?
    }

    /** Close is reported once, on deactivation. */
    ghost predicate Valid() {
      Tied() && multiset(returned)[Event.Close] == (if state.Deactivated? then 1 else 0) && Event.Close !in queued && NoneWaits()
    }

    function Logged(s: SubstreamId, k: Kind): ReportPart
      requires s in history
    {
      this.(history := history[s := history[s].(log := history[s].log + [k])])
    }

    lemma PushValid(e: Event)
      requires Valid() && Quiet(e)
      ensures this.(queued := queued + [e]).Valid()
    {
      hide Project;
      assert returned + (queued + [e]) == returned + queued + [e];
      forall s
        ensures Project(returned + (queued + [e]), s) == Log(s)
      {
        ProjectSnoc(returned + queued, e, s);
      }
    }

    lemma PushFromValid(e: Event, sub: SubstreamId, k: Kind)
      requires Valid() && sub in history && From(e, sub, k) && k != R
      ensures Logged(sub, k).(queued := queued + [e]).Valid()
    {
      hide Project;
      assert returned + (queued + [e]) == returned + queued + [e];
      forall s
        ensures Project(returned + (queued + [e]), s) == Logged(sub, k).Log(s)
      {
        ProjectSnoc(returned + queued, e, s);
      }
    }

    lemma ReturnedProject(e: Event, s: SubstreamId)
      requires KindOf(e, s) == [] || Project(queued, s) == []
      ensures Project(returned + [e] + queued, s) == Project(returned + queued, s) + KindOf(e, s)
    {
      hide Project, KindOf;
      ProjectConcat(returned + [e], queued, s);
      ProjectConcat(returned, queued, s);
      ProjectSnoc(returned, e, s);
    }

    /** An event of `sub` returned straight from a poll overtakes only events of others. */
    lemma ReturnValid(e: Event, sub: SubstreamId, k: Kind)
      requires Valid() && sub in history && Project(queued, sub) == [] && From(e, sub, k)
      ensures Logged(sub, k).(returned := returned + [e]).Valid()
    {
      hide Project;
      forall s
        ensures Project(returned + [e] + queued, s) == Logged(sub, k).Log(s)
      {
        ReturnedProject(e, s);
      }
    }

    lemma CloseValid()
      requires Valid() && !state.Deactivated?
      ensures this.(state := Deactivated, returned := returned + [Event.Close]).Valid()
    {
      hide Project;
      forall s
        ensures Project(returned + [Event.Close] + queued, s) == Log(s)
      {
        ReturnedProject(Event.Close, s);
      }
    }

    /** A substream opened after deactivation starts with an error. */
    lemma LateValid(s: SubstreamId, asked: Request, e: Event)
      requires Valid() && s !in history && From(e, s, E)
      ensures this.(history := history[s := OutboundHistory(asked, true, [E])], queued := queued + [e]).Valid()
    {
      hide ReportPart.Valid;
      var p := this.(history := history[s := OutboundHistory(asked, true, [])]);
      NewValid(s, OutboundHistory(asked, true, []));
      p.PushFromValid(e, s, E);
      assert [] + [E] == [E];
      assert p.Logged(s, E).history == history[s := OutboundHistory(asked, true, [E])];
    }

    lemma ShuttingDownValid()
      requires Valid() && state.Active?
      ensures this.(state := ShuttingDown).Valid()
    {
      hide Project;
    }

    lemma NoCloseQueued()
      requires Valid()
      ensures Event.Close !in queued && NoneWaits()
    {}

    /** The oldest queued event is handed out. */
    lemma ShiftValid()
      requires Valid() && queued != []
      ensures this.(returned := returned + [queued[0]], queued := queued[1..]).Valid()
    {
      hide Project;
      assert returned + [queued[0]] + queued[1..] == returned + queued;
    }

    /** A new substream has reported nothing. */
    lemma NewValid(s: SubstreamId, h: OutboundHistory)
      requires Valid() && s !in history && h.log == []
      ensures this.(history := history[s := h]).Valid()
    {
      hide Project;
    }
  }

  // ----- Requests -----

  /** `dialling`, `accepted` and `settled` are what became of requests. */
  datatype DialPart = DialPart(
    queue: seq<Dial>,
    negotiated: nat,
    dialling: multiset<Dial>,
    accepted: multiset<Dial>,
    settled: multiset<Dial>)
  {
    /** Every request accepted for sending is queued, being dialled, or settled. */
    ghost predicate Valid() {
      && negotiated == |dialling| <= MAX_DIAL_NEGOTIATED
      && accepted == multiset(queue) + dialling + settled
      && (forall d :: d in accepted ==> Sensible(d.req))
    }

    lemma Bounded()
      requires Valid()
      ensures negotiated <= MAX_DIAL_NEGOTIATED
    {}

    function Accept(d: Dial): DialPart {
      this.(queue := queue + [d], accepted := accepted + multiset{d})
    }

    function Refuse(d: Dial): DialPart {
      this.(accepted := accepted + multiset{d}, settled := settled + multiset{d})
    }

    lemma AcceptValid(d: Dial)
      requires Valid() && Sensible(d.req)
      ensures Accept(d).Valid() && Refuse(d).Valid()
    {}

    lemma FailValid()
      requires Valid() && queue != []
      ensures this.(queue := queue[..|queue| - 1], settled := settled + multiset{queue[|queue| - 1]}).Valid()
    {
      assert queue == queue[..|queue| - 1] + [queue[|queue| - 1]];
    }

    lemma OpenValid()
      requires Valid() && queue != [] && negotiated < MAX_DIAL_NEGOTIATED
      ensures this.(queue := queue[1..], negotiated := negotiated + 1, dialling := dialling + multiset{queue[0]}).Valid()
    {
      assert queue == [queue[0]] + queue[1..];
    }

    function Resolve(d: Dial): DialPart
      requires negotiated >= 1
    {
      this.(negotiated := negotiated - 1, dialling := dialling - multiset{d}, settled := settled + multiset{d})
    }

    function Reopen(d: Dial): DialPart
      requires negotiated >= 1
    {
      this.(negotiated := negotiated - 1, dialling := dialling - multiset{d}, accepted := accepted - multiset{d})
    }

    lemma ResolveValid(d: Dial)
      requires Valid() && d in dialling
      ensures negotiated >= 1 && Sensible(d.req) && Resolve(d).Valid()
    {
      assert d in accepted;
      assert dialling == dialling - multiset{d} + multiset{d};
    }

    lemma ReopenValid(d: Dial)
      requires Valid() && d in dialling
      ensures negotiated >= 1 && Sensible(d.req) && Reopen(d).Valid()
      ensures var after := Reopen(d); after == this.(negotiated := negotiated - 1, dialling := after.dialling, accepted := after.accepted)
    {
      assert d in accepted;
      assert dialling == dialling - multiset{d} + multiset{d};
    }

    lemma ReopenKeeps(d: Dial)
      requires Valid() && d in dialling && negotiated >= 1
      ensures Reopen(d).Accept(d).accepted == accepted && Reopen(d).Refuse(d).accepted == accepted
      ensures Reopen(d).Accept(d).queue == queue + [d] && Reopen(d).Refuse(d).queue == queue
    {
      assert d in accepted;
    }
  }

  // ----- What the invariants mean for the peer and the application -----

  lemma TallyPrefix(log: seq<Kind>, log': seq<Kind>, k: Kind)
    requires log <= log'
    ensures Tally(log, k) <= Tally(log', k)
  {
    assert log' == log + log'[|log|..];
  }

  /**
    What the application has been given of an outbound substream: at most the responses asked for
    (one when exactly one is expected), then errors, then at most one end of stream with nothing after it.
  */
  lemma DeliveredWithinLimit(o: OutboundPart, r: ReportPart, s: SubstreamId)
    requires o.Valid() && r.Valid() && o.history == r.history && s in o.history
    ensures var delivered := Project(r.returned, s);
            && Tally(delivered, R) <= Limit(o.history[s].asked)
            && Tally(delivered, End) <= 1
            && Tally(delivered, E) + Tally(delivered, End) <= (if o.history[s].late then 3 else 2)
            && (forall i :: 0 <= i < |delivered| - 1 ==> delivered[i] != End)
            && (forall i, j :: 0 <= i < j < |delivered| && delivered[j] == R ==> delivered[i] == R)
  {
    var log, delivered := o.history[s].log, Project(r.returned, s);
    assert delivered <= log by { ProjectConcat(r.returned, r.queued, s); }
    TallyPrefix(delivered, log, R);
    TallyPrefix(delivered, log, E);
    TallyPrefix(delivered, log, End);
    forall i | 0 <= i < |delivered| - 1
      ensures delivered[i] != End
    {
      assert log[i] == delivered[i];
      if log[i] == End {
        OnlyOne(log, i);
        assert false;
      }
    }
    forall i, j | 0 <= i < j < |delivered| && delivered[j] == R
      ensures delivered[i] == R
    {
      assert Rank(log[i]) <= Rank(log[j]) && log[i] == delivered[i] && log[j] == delivered[j];
    }
  }

  lemma OnlyOne(log: seq<Kind>, i: nat)
    requires i + 1 < |log| && InOrder(log) && log[i] == End
    ensures Tally(log, End) >= 2
  {
    assert Rank(log[i]) <= Rank(log[i + 1]);
    var a, b := log[..i + 1], log[i + 1..];
    assert log == a + b;
    assert a[i] in multiset(a) && b[0] in multiset(b);
  }

  /** What the peer has been sent on an inbound substream: what was queued, in order, within the budget, and nothing after an error or a termination. */
  lemma SentWithinBudget(p: InboundPart, id: SubstreamId)
    requires p.Valid() && id in p.history
    ensures var h := p.history[id];
            && |h.taken| <= h.budget && h.taken <= h.queued
            && (forall i :: 0 <= i < |h.taken| - 1 ==> !h.taken[i].CloseAfter())
  {
    var h := p.history[id];
    forall i | 0 <= i < |h.taken| - 1
      ensures !h.taken[i].CloseAfter()
    {
      assert h.taken[i] == h.taken[..|h.taken| - 1][i];
    }
  }

  /** The timers of outbound substreams name exactly the open substreams, each once. */
  lemma TimersNameSubstreams(o: OutboundPart)
    requires o.Valid()
    ensures o.delay.Values == o.substreams.Keys
    ensures forall j, k :: j in o.delay && k in o.delay && o.delay[j] == o.delay[k] ==> j == k
  {
    forall id | id in o.substreams
      ensures id in o.delay.Values
    {
      assert o.delay[o.substreams[id].delayKey] == id;
    }
  }
}
