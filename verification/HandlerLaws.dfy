/** What the application is told about its requests, in terms of what was read from the substreams. */
module HandlerLaws {
  import opened Common
  import opened HandlerModel
  import opened HandlerParts
  import opened HandlerPoll

  /** Protocols with exactly one response. */
  const SINGLE: set<Protocol> := {Status, Ping, MetaData, LightClientBootstrap, LightClientOptimisticUpdate, LightClientFinalityUpdate}

  /** Protocols that end with a termination. */
  const STREAMED: set<Protocol> := {BlocksByRange, BlocksByRoot, BlobsByRange, BlobsByRoot, DataColumnsByRoot, DataColumnsByRange}

  ghost predicate Pending(v: View, s: SubstreamId) {
    s in v.outbound && v.outbound[s].state.RequestPendingResponse?
  }

  /** The poll gets as far as the substreams. */
  ghost predicate GoesOn(env: Env, v0: View) {
    v0.events == [] && !(v0.state.ShuttingDown? && env.shutdownElapsed) && env.outboundExpired * v0.outboundDelay.Keys == {}
  }

  /** Something was read from a substream that waits for responses: it had something, and is no longer as it was. */
  ghost predicate ReadNow(env: Env, v0: View, v: View, s: SubstreamId) {
    GoesOn(env, v0) && !v0.state.Deactivated? && Pending(v0, s) && !env.read(s).ReadPending? && At(v.outbound, s) != Some(v0.outbound[s])
  }

  /** What the application is told of an answer to request `q` on `s`. */
  ghost predicate Tells(read: ReadPoll, protocol: Protocol, s: SubstreamId, q: ReqId, e: Event) {
    match read
    case ReadPending => false
    case Chunk(payload) => e == Response(s, q, payload)
    case ErrorChunk(code) => e == OutboundError(Some(s), q, ErrorCode(code))
    case ReadEnd => if protocol in SINGLE then e == OutboundError(Some(s), q, IncompleteStream) else e == EndOfStream(s, q)
    case ReadFailed => e == OutboundError(Some(s), q, OtherError)
  }

  // ----- The substreams of one poll -----

  lemma Inside(env: Env, v0: View, v: View, r: PollResult) returns (ids: set<SubstreamId>, news: seq<Event>, reported: Option<Event>)
    requires PollSpec(env, v0, v, r) && GoesOn(env, v0)
    ensures OutboundSpec(v0.outbound, v.outbound, v0.state.Deactivated?, env.read, env.closed, ids, news, reported)
    ensures reported.Some? ==> r == Notify(reported.value)
    ensures reported.None? ==> !r.Notify? || r == Notify(Close)
  {
    hide ReportsSpec, OutboundSpec;
    var mid, rep :| ReportsSpec(env, v0, mid, rep) && if rep.Some? then r == Notify(rep.value) && v == mid else IdleSpec(mid, v, r);
    ids, news := InsideReports(env, v0, mid, rep);
    reported := rep;
  }

  lemma InsideReports(env: Env, v0: View, v: View, r: Option<Event>) returns (ids: set<SubstreamId>, news: seq<Event>)
    requires ReportsSpec(env, v0, v, r) && GoesOn(env, v0)
    ensures OutboundSpec(v0.outbound, v.outbound, v0.state.Deactivated?, env.read, env.closed, ids, news, r)
  {
    hide InboundPolled, OutboundSpec, TimedOutBy, TimeoutsReported;
    var mid, first :| TimersSpec(env, v0, mid, first) && if first.Some? then v == mid && r == first else SubstreamsSpec(env, mid, v, r);
    var n: nat, polled :| SubstreamsWith(env, mid, v, r, n, polled);
    ids, news := polled, v.events[n..];
  }

  lemma ReadIsReported(before: map<SubstreamId, OutboundInfo>, after: map<SubstreamId, OutboundInfo>, read: SubstreamId -> ReadPoll,
                       closed: SubstreamId -> bool, ids: set<SubstreamId>, news: seq<Event>, r: Option<Event>, s: SubstreamId)
    requires OutboundSpec(before, after, false, read, closed, ids, news, r)
    requires s in before && before[s].state.RequestPendingResponse? && !read(s).ReadPending? && At(after, s) != Some(before[s])
    ensures r.Some? && Tells(read(s), before[s].state.request.protocol, s, before[s].reqId, r.value)
  {
    hide Left, WaitsQueued;
    assert s in ids;
    assert !Silent(s, before[s], false, read(s), closed(s));
    if r.Some? {
      var id :| ReportedBy(id, before, false, read, closed, ids, r.value);
      assert id == s;
    }
  }

  /** Whatever is read is told to the application, for the request of its substream. */
  lemma WhatIsReadIsTold(env: Env, v0: View, v: View, r: PollResult, s: SubstreamId)
    requires PollSpec(env, v0, v, r) && ReadNow(env, v0, v, s)
    ensures r.Notify? && Tells(env.read(s), v0.outbound[s].state.request.protocol, s, v0.outbound[s].reqId, r.event)
  {
    hide PollSpec, OutboundSpec;
    var ids, news, reported := Inside(env, v0, v, r);
    ReadIsReported(v0.outbound, v.outbound, env.read, env.closed, ids, news, reported, s);
  }

  /** Where an event of a substream comes from when nothing is queued. */
  ghost predicate Origin(env: Env, v0: View, v: View, s: SubstreamId, q: ReqId, e: Event) {
    || (s in v0.outbound && q == v0.outbound[s].reqId && ReadNow(env, v0, v, s) && Tells(env.read(s), v0.outbound[s].state.request.protocol, s, q, e))
    || (s in v0.outbound && q == v0.outbound[s].reqId && v0.outbound[s].state.Closing? && env.closed(s) && v0.outbound[s].proto in STREAMED && e == EndOfStream(s, q))
    || (s in v0.outbound && q == v0.outbound[s].reqId && e == OutboundError(Some(s), q, StreamTimeout) &&
        exists k :: k in env.outboundExpired && k in v0.outboundDelay && v0.outboundDelay[k] == s)
  }

  lemma ReportedHasOrigin(before: map<SubstreamId, OutboundInfo>, after: map<SubstreamId, OutboundInfo>, deactivated: bool, read: SubstreamId -> ReadPoll,
                          closed: SubstreamId -> bool, ids: set<SubstreamId>, news: seq<Event>, e: Event) returns (s: SubstreamId)
    requires OutboundSpec(before, after, deactivated, read, closed, ids, news, Some(e))
    ensures s in before
    ensures if before[s].state.Closing? then closed(s) && before[s].proto in STREAMED && e == EndOfStream(s, before[s].reqId)
            else && !deactivated && before[s].state.RequestPendingResponse? && !read(s).ReadPending? && At(after, s) != Some(before[s])
                 && Tells(read(s), before[s].state.request.protocol, s, before[s].reqId, e)
  {
    hide WaitsQueued;
    s :| ReportedBy(s, before, deactivated, read, closed, ids, e);
    assert At(after, s) == Left(before[s], deactivated, read(s), closed(s));
  }

  /**
    When nothing is queued, an event of substream `s` for request `q` was just read from `s`, which `q` opened; or it ends
    a closing substream that has just closed; or it is the timeout of `s`.
  */
  lemma EventHasOrigin(env: Env, v0: View, v: View, e: Event, s: SubstreamId, q: ReqId)
    requires PollSpec(env, v0, v, Notify(e)) && v0.events == []
    requires (e.Response? && e.sub == s && e.reqId == q) || (e.EndOfStream? && e.sub == s && e.reqId == q) || (e.OutboundError? && e.from == Some(s) && e.reqId == q)
    ensures Origin(env, v0, v, s, q, e)
  {
    hide PollSpec, OutboundSpec;
    if GoesOn(env, v0) {
      var ids, news, reported := Inside(env, v0, v, Notify(e));
      var from := ReportedHasOrigin(v0.outbound, v.outbound, v0.state.Deactivated?, env.read, env.closed, ids, news, e);
      assert from == s;
    } else {
      TimeoutsComeFirst(env, v0, v, Notify(e));
    }
  }

  ghost predicate TimeoutOf(v0: View, s: SubstreamId, r: PollResult) {
    s in v0.outbound && r == Notify(OutboundError(Some(s), v0.outbound[s].reqId, StreamTimeout))
  }

  /** If a timer has run out, the poll hands out a timeout of its substream. */
  lemma TimeoutsComeFirst(env: Env, v0: View, v: View, r: PollResult)
    requires PollSpec(env, v0, v, r) && v0.events == [] && !GoesOn(env, v0)
    ensures r == Notify(Close) || exists k :: k in env.outboundExpired && k in v0.outboundDelay && TimeoutOf(v0, v0.outboundDelay[k], r)
  {
    hide SubstreamsSpec, TimedOutBy, TimeoutsReported;
    if !(v0.state.ShuttingDown? && env.shutdownElapsed) {
      var mid, rep :| ReportsSpec(env, v0, mid, rep) && if rep.Some? then r == Notify(rep.value) && v == mid else IdleSpec(mid, v, r);
      var timed, first :| TimersSpec(env, v0, timed, first) && if first.Some? then mid == timed && rep == first else SubstreamsSpec(env, timed, mid, rep);
      var k :| ExpiredAt(k, env.outboundExpired, v0.outbound, v0.outboundDelay, timed.outbound, timed.outboundDelay, first.value);
    }
  }

  /** A response is handed out exactly when a chunk is read, with its payload and for the request of its substream. */
  lemma ResponseIffChunk(env: Env, v0: View, v: View, r: PollResult, s: SubstreamId, q: ReqId, payload: nat)
    requires PollSpec(env, v0, v, r) && forall e :: e in v0.events ==> !e.Response?
    ensures r == Notify(Response(s, q, payload)) <==>
            ReadNow(env, v0, v, s) && env.read(s) == Chunk(payload) && q == v0.outbound[s].reqId
  {
    hide PollSpec;
    if r == Notify(Response(s, q, payload)) {
      if v0.events != [] {
        HeadIsReported(env, v0, v, r.event);
      } else {
        EventHasOrigin(env, v0, v, r.event, s, q);
      }
    }
    if ReadNow(env, v0, v, s) {
      WhatIsReadIsTold(env, v0, v, r, s);
    }
  }

  /** An error response is reported exactly when it is read, with its code. */
  lemma ErrorIffErrorChunk(env: Env, v0: View, v: View, r: PollResult, s: SubstreamId, q: ReqId, code: nat)
    requires PollSpec(env, v0, v, r) && v0.events == []
    ensures r == Notify(OutboundError(Some(s), q, ErrorCode(code))) <==>
            ReadNow(env, v0, v, s) && env.read(s) == ErrorChunk(code) && q == v0.outbound[s].reqId
  {
    hide PollSpec;
    if r == Notify(OutboundError(Some(s), q, ErrorCode(code))) {
      EventHasOrigin(env, v0, v, r.event, s, q);
    }
    if ReadNow(env, v0, v, s) {
      WhatIsReadIsTold(env, v0, v, r, s);
    }
  }

  /** A stream that ends early is an error exactly when a single response was expected. */
  lemma IncompleteIffSingle(env: Env, v0: View, v: View, r: PollResult, s: SubstreamId, q: ReqId)
    requires PollSpec(env, v0, v, r) && v0.events == []
    ensures r == Notify(OutboundError(Some(s), q, IncompleteStream)) <==>
            ReadNow(env, v0, v, s) && env.read(s).ReadEnd? && v0.outbound[s].state.request.protocol in SINGLE && q == v0.outbound[s].reqId
  {
    hide PollSpec;
    if r == Notify(OutboundError(Some(s), q, IncompleteStream)) {
      EventHasOrigin(env, v0, v, r.event, s, q);
    }
    if ReadNow(env, v0, v, s) {
      WhatIsReadIsTold(env, v0, v, r, s);
    }
  }

  /** An end of stream is handed out exactly when one was read for several responses, or a closing substream with a termination closes. */
  lemma EndOfStreamFor(env: Env, v0: View, v: View, r: PollResult, s: SubstreamId, q: ReqId)
    requires PollSpec(env, v0, v, r) && v0.events == [] && r == Notify(EndOfStream(s, q))
    ensures s in v0.outbound && q == v0.outbound[s].reqId
    ensures || (ReadNow(env, v0, v, s) && env.read(s).ReadEnd? && v0.outbound[s].state.request.protocol !in SINGLE)
            || (v0.outbound[s].state.Closing? && env.closed(s) && v0.outbound[s].proto in STREAMED)
  {
    hide PollSpec;
    EventHasOrigin(env, v0, v, r.event, s, q);
  }

  // ----- Whole runs -----

  /** One poll of a run; other operations may lie between two of them. */
  datatype Record = Record(env: Env, before: View, after: View, r: PollResult)

  ghost predicate Recorded(ps: seq<Record>) {
    forall i :: 0 <= i < |ps| ==> PollSpec(ps[i].env, ps[i].before, ps[i].after, ps[i].r) && forall e :: e in ps[i].before.events ==> !e.Response?
  }

  /** The responses handed out for a substream: the request, and the payload. */
  function Delivered(ps: seq<Record>, s: SubstreamId): seq<(ReqId, nat)> {
    if ps == [] then []
    else
      var last := ps[|ps| - 1].r;
      Delivered(ps[..|ps| - 1], s) + if last.Notify? && last.event.Response? && last.event.sub == s then [(last.event.reqId, last.event.payload)] else []
  }

  /** The chunks read from a substream, with the request it belongs to. */
  ghost function ChunksRead(ps: seq<Record>, s: SubstreamId): seq<(ReqId, nat)> {
    if ps == [] then []
    else
      var last := ps[|ps| - 1];
      ChunksRead(ps[..|ps| - 1], s) +
      if ReadNow(last.env, last.before, last.after, s) && last.env.read(s).Chunk? then [(last.before.outbound[s].reqId, last.env.read(s).payload)] else []
  }

  /** Over every run, what the application is given for a substream are the chunks read from it, in order. */
  lemma {:induction false} DeliveredIsRead(ps: seq<Record>, s: SubstreamId)
    requires Recorded(ps)
    ensures Delivered(ps, s) == ChunksRead(ps, s)
    decreases |ps|
  {
    hide PollSpec, ReadNow;
    if ps != [] {
      var init, last := ps[..|ps| - 1], ps[|ps| - 1];
      DeliveredIsRead(init, s);
      assert PollSpec(last.env, last.before, last.after, last.r);
      LastIsRead(last, s);
    }
  }

  lemma LastIsRead(last: Record, s: SubstreamId)
    requires PollSpec(last.env, last.before, last.after, last.r) && forall e :: e in last.before.events ==> !e.Response?
    ensures var told := last.r.Notify? && last.r.event.Response? && last.r.event.sub == s;
            && (told <==> ReadNow(last.env, last.before, last.after, s) && last.env.read(s).Chunk?)
            && (told ==> last.r.event.reqId == last.before.outbound[s].reqId && last.r.event.payload == last.env.read(s).payload)
  {
    hide PollSpec;
    if last.r.Notify? && last.r.event.Response? && last.r.event.sub == s {
      ResponseIffChunk(last.env, last.before, last.after, last.r, s, last.r.event.reqId, last.r.event.payload);
    }
    if ReadNow(last.env, last.before, last.after, s) && last.env.read(s).Chunk? {
      ResponseIffChunk(last.env, last.before, last.after, last.r, s, last.before.outbound[s].reqId, last.env.read(s).payload);
    }
  }

  /** A substream belongs to one request for as long as it is open. */
  lemma RequestStays(env: Env, v0: View, v: View, r: PollResult, s: SubstreamId)
    requires PollSpec(env, v0, v, r) && s in v.outbound
    ensures s in v0.outbound && v.outbound[s].reqId == v0.outbound[s].reqId && v.outbound[s].proto == v0.outbound[s].proto
  {
    hide PollSpec, OutboundSpec;
    if GoesOn(env, v0) {
      var ids, news, reported := Inside(env, v0, v, r);
      PolledKeeps(v0.outbound, v.outbound, v0.state.Deactivated?, env.read, env.closed, ids, news, reported, s);
    } else {
      OthersStay(env, v0, v, r, s);
    }
  }

  lemma PolledKeeps(before: map<SubstreamId, OutboundInfo>, after: map<SubstreamId, OutboundInfo>, deactivated: bool, read: SubstreamId -> ReadPoll,
                    closed: SubstreamId -> bool, ids: set<SubstreamId>, news: seq<Event>, r: Option<Event>, s: SubstreamId)
    requires OutboundSpec(before, after, deactivated, read, closed, ids, news, r) && s in after
    ensures s in before && after[s].reqId == before[s].reqId && after[s].proto == before[s].proto
  {
    hide WaitsQueued, AllSilent, ReportedBy;
    assert At(after, s) == if s in ids then Left(before[s], deactivated, read(s), closed(s)) else Some(before[s]);
  }

  lemma OthersStay(env: Env, v0: View, v: View, r: PollResult, s: SubstreamId)
    requires PollSpec(env, v0, v, r) && !GoesOn(env, v0) && s in v.outbound
    ensures s in v0.outbound && v.outbound[s] == v0.outbound[s]
  {
    hide SubstreamsSpec, TimedOutBy, TimeoutsReported;
    if v0.events == [] && !(v0.state.ShuttingDown? && env.shutdownElapsed) {
      var mid, rep :| ReportsSpec(env, v0, mid, rep) && if rep.Some? then r == Notify(rep.value) && v == mid else IdleSpec(mid, v, r);
      var timed, first :| TimersSpec(env, v0, timed, first) && if first.Some? then mid == timed && rep == first else SubstreamsSpec(env, timed, mid, rep);
      var k :| ExpiredAt(k, env.outboundExpired, v0.outbound, v0.outboundDelay, timed.outbound, timed.outboundDelay, first.value);
    }
  }

  // ----- Requests and responses that are cut off -----

  /** Each request dropped by a shutdown fails as disconnected, the newest first. */
  lemma {:induction false} EachFailsOnce(queue: seq<Dial>, i: nat)
    ensures |Failures(queue)| == |queue|
    ensures i < |queue| ==> Failures(queue)[i] == OutboundError(None, queue[|queue| - 1 - i].id, Disconnected)
    decreases |queue|
  {
    if queue != [] {
      EachFailsOnce(queue[..|queue| - 1], if i > 0 then i - 1 else 0);
    }
  }

  /** What is queued on a substream whose timer ran out stays, and the last of it closes the substream: a server error if nothing else does. */
  lemma TimedOutIsEnded(info: InboundInfo)
    ensures var after := TimedOut(info);
            && after.delayKey.None? && after.state == info.state && after.protocol == info.protocol && info.pendingItems <= after.pendingItems
            && (after.pendingItems != [] ==> !after.pendingItems[|after.pendingItems| - 1].Success?)
            && (info.pendingItems != after.pendingItems ==> after.pendingItems == info.pendingItems + [ErrorResponse(2)])
  {}
}
