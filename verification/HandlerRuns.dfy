/**
  Runs of the handler that reach what its invariant leaves room for. Each step is an operation of the handler:
  a request, a shutdown, an opened substream, or a poll.
*/
module HandlerRuns {
  import opened Common
  import opened HandlerModel
  import opened HandlerParts
  import opened HandlerPoll
  import opened RpcHandler

  // ----- Polls of a handler with at most one outbound substream and no inbound one -----

  /** Nothing is ready and no timer has run out. */
  function Calm(): Env {
    Env(false, {}, {}, (_, _) => SendPending, _ => ReadPending, _ => false)
  }

  /** No inbound substream, and no queued event. */
  ghost predicate Plain(v: View) {
    v.events == [] && v.inbound == map[] && v.inboundDelay == map[]
  }

  lemma QuietTimers(env: Env, v0: View, v: View, r: Option<Event>)
    requires TimersSpec(env, v0, v, r) && Plain(v0)
    ensures Plain(v) && SameDials(v0, v)
    ensures env.outboundExpired * v0.outboundDelay.Keys == {} ==> r.None? && v.outbound == v0.outbound && v.outboundDelay == v0.outboundDelay
    ensures v0.outboundDelay == map[0 := 0] && env.outboundExpired == {0} && 0 in v0.outbound ==>
              r == Some(OutboundError(Some(0), v0.outbound[0].reqId, StreamTimeout))
  {
    assert env.inboundExpired * v0.inboundDelay.Keys == {};
    if v0.outboundDelay == map[0 := 0] && env.outboundExpired == {0} && 0 in v0.outbound {
      assert 0 in env.outboundExpired * v0.outboundDelay.Keys;
    }
  }

  lemma FirstIsIn(news: seq<Event>)
    ensures news == [] || news[0] in news
  {}

  lemma NobodyDriven(before: map<SubstreamId, InboundInfo>, history0: map<SubstreamId, InboundHistory>, after: map<SubstreamId, InboundInfo>, history: map<SubstreamId, InboundHistory>,
                     deactivated: bool, send: (SubstreamId, nat) -> SendPoll, news: seq<Event>)
    requires InboundPolled(before, history0, after, history, deactivated, send, before.Keys, news) && before == map[]
    ensures after == map[] && news == []
  {
    hide ErrorsFor, Driven;
    FirstIsIn(news);
  }

  /** What the only outbound substream does in one poll. */
  ghost predicate OnePolled(env: Env, v0: View, v: View, r: Option<Event>, info: OutboundInfo) {
    var deactivated := v0.state.Deactivated?;
    var left := Left(info, deactivated, env.read(0), env.closed(0));
    && v.inbound == map[] && SameDials(v0, v)
    && v.outbound == (if left.Some? then map[0 := left.value] else map[])
    && r == (if Waits(info, deactivated) then None else Reported(0, info, deactivated, env.read(0), env.closed(0)))
    && v.events == (if Waits(info, deactivated) then [OutboundError(Some(0), info.reqId, Disconnected)] else [])
  }

  lemma PollsTheOnlyOne(env: Env, v0: View, v: View, r: Option<Event>, info: OutboundInfo)
    requires SubstreamsSpec(env, v0, v, r) && Plain(v0) && v0.outbound == map[0 := info]
    ensures OnePolled(env, v0, v, r, info)
  {
    hide InboundPolled, OutboundSpec, Left, Waits, Reported;
    var n: nat, ids :| SubstreamsWith(env, v0, v, r, n, ids);
    NobodyDriven(v0.inbound, v0.inboundHistory, v.inbound, v.inboundHistory, v0.state.Deactivated?, env.send, v.events[|v0.events|..n]);
    assert v.events[n..] == v.events;
    OnlyOnePolled(info, v.outbound, v0.state.Deactivated?, env.read, env.closed, ids, v.events, r);
  }

  lemma OnlyOnePolled(info: OutboundInfo, after: map<SubstreamId, OutboundInfo>, deactivated: bool, read: SubstreamId -> ReadPoll,
                      closed: SubstreamId -> bool, ids: set<SubstreamId>, news: seq<Event>, r: Option<Event>)
    requires OutboundSpec(map[0 := info], after, deactivated, read, closed, ids, news, r)
    ensures var left := Left(info, deactivated, read(0), closed(0)); after == if left.Some? then map[0 := left.value] else map[]
    ensures r == if Waits(info, deactivated) then None else Reported(0, info, deactivated, read(0), closed(0))
    ensures news == if Waits(info, deactivated) then [OutboundError(Some(0), info.reqId, Disconnected)] else []
  {
    hide Left, Waits, Reported;
    var before := map[0 := info];
    if r.Some? {
      var id :| ReportedBy(id, before, deactivated, read, closed, ids, r.value);
    } else {
      assert 0 in ids;
      assert Silent(0, before[0], deactivated, read(0), closed(0));
    }
    assert ids == {0} && At(after, 0) == Left(info, deactivated, read(0), closed(0));
    assert WaitingIds(before, deactivated, ids) == if Waits(info, deactivated) then {0} else {};
  }

  /** One poll of such a handler. */
  lemma OnePoll(env: Env, v0: View, v: View, r: PollResult, info: OutboundInfo)
    requires PollSpec(env, v0, v, r) && Plain(v0) && v0.outbound == map[0 := info] && v0.dialQueue == []
    requires env.outboundExpired == {} && !v0.state.ShuttingDown?
    ensures var reported := if Waits(info, v0.state.Deactivated?) then None else Reported(0, info, v0.state.Deactivated?, env.read(0), env.closed(0));
            && r == (if reported.Some? then Notify(reported.value) else Pending)
            && OnePolled(env, v0, v, reported, info)
  {
    hide ReportsSpec, OnePolled, Left, Waits, Reported;
    var mid, reported :| ReportsSpec(env, v0, mid, reported) && if reported.Some? then r == Notify(reported.value) && v == mid else IdleSpec(mid, v, r);
    OneReport(env, v0, mid, reported, info);
  }

  lemma OneReport(env: Env, v0: View, v: View, r: Option<Event>, info: OutboundInfo)
    requires ReportsSpec(env, v0, v, r) && Plain(v0) && v0.outbound == map[0 := info] && env.outboundExpired == {}
    ensures OnePolled(env, v0, v, r, info) && SameDials(v0, v)
    ensures r == if Waits(info, v0.state.Deactivated?) then None else Reported(0, info, v0.state.Deactivated?, env.read(0), env.closed(0))
  {
    hide TimersSpec, SubstreamsSpec, Left, Waits, Reported;
    var mid, first :| TimersSpec(env, v0, mid, first) && if first.Some? then v == mid && r == first else SubstreamsSpec(env, mid, v, r);
    QuietTimers(env, v0, mid, first);
    PollsTheOnlyOne(env, mid, v, r, info);
  }

  /** With no substream at all, a queued request is dialled. */
  lemma DialsAtOnce(env: Env, v0: View, v: View, r: PollResult, d: Dial)
    requires PollSpec(env, v0, v, r) && Plain(v0) && v0.outbound == map[] && v0.outboundDelay == map[] && v0.state.Active?
    requires v0.dialQueue == [d] && v0.dialNegotiated == 0
    ensures r == OpenSubstream(d) && v.events == [] && v.inbound == map[] && v.outbound == map[] && v.dialQueue == [] && v.state.Active?
  {
    hide ReportsSpec;
    var mid, reported :| ReportsSpec(env, v0, mid, reported) && if reported.Some? then r == Notify(reported.value) && v == mid else IdleSpec(mid, v, r);
    NothingReported(env, v0, mid, reported);
  }

  lemma NothingReported(env: Env, v0: View, v: View, r: Option<Event>)
    requires ReportsSpec(env, v0, v, r) && Plain(v0) && v0.outbound == map[] && v0.outboundDelay == map[]
    ensures r.None? && v.events == [] && v.inbound == map[] && v.outbound == map[] && SameDials(v0, v)
  {
    hide TimersSpec, InboundPolled, Left, Waits, Reported;
    var mid, first :| TimersSpec(env, v0, mid, first) && if first.Some? then v == mid && r == first else SubstreamsSpec(env, mid, v, r);
    QuietTimers(env, v0, mid, first);
    var n: nat, ids :| SubstreamsWith(env, mid, v, r, n, ids);
    NobodyDriven(mid.inbound, mid.inboundHistory, v.inbound, v.inboundHistory, mid.state.Deactivated?, env.send, v.events[|mid.events|..n]);
    assert WaitingIds(map[], mid.state.Deactivated?, ids) == {};
  }

  /** A poll after its timer ran out. */
  lemma TimesOut(env: Env, v0: View, v: View, r: PollResult)
    requires PollSpec(env, v0, v, r) && Plain(v0) && 0 in v0.outbound && v0.outboundDelay == map[0 := 0]
    requires env.outboundExpired == {0} && !v0.state.ShuttingDown?
    ensures r == Notify(OutboundError(Some(0), v0.outbound[0].reqId, StreamTimeout))
  {
    hide TimersSpec, SubstreamsSpec;
    var mid, reported :| ReportsSpec(env, v0, mid, reported) && if reported.Some? then r == Notify(reported.value) && v == mid else IdleSpec(mid, v, r);
    var timed, first :| TimersSpec(env, v0, timed, first) && if first.Some? then mid == timed && reported == first else SubstreamsSpec(env, timed, mid, reported);
    QuietTimers(env, v0, timed, first);
  }

  // ----- Three errors -----

  const ASKED: Request := Request(BlocksByRoot, 1)

  lemma ThreeErrorsInLog(a: Event, b: Event, c: Event)
    requires From(a, 0, E) && From(b, 0, E) && From(c, 0, E)
    ensures Project([Close, a, b, c], 0) == [E, E, E]
  {
    assert [Close, a, b, c] == [Close, a, b] + [c] && [Close, a, b] == [Close, a] + [b] && [Close, a] == [Close] + [a] && [Close] == [] + [Close];
    ProjectSnoc([], Close, 0);
    ProjectSnoc([Close], a, 0);
    ProjectSnoc([Close, a], b, 0);
    ProjectSnoc([Close, a, b], c, 0);
  }

  /** A request is made, and a poll dials it. */
  method Dialled() returns (h: RPCHandler)
    ensures fresh(h) && h.Valid() && h.state.Active? && Dial(0, ASKED) in h.dialling && h.returned == [] && h.nextDelayKey == 0 && h.currentOutboundId == 0
    ensures Plain(h.Snapshot()) && h.dialQueue == [] && h.outbound == map[] && h.outboundDelay == map[]
  {
    hide InboundPart.Valid, OutboundPart.Valid, ReportPart.Valid, DialPart.Valid, PollSpec, Grows, LogsGrow, NothingToDo;
    h := new RPCHandler();
    h.SendRequest(0, ASKED);
    ghost var v0 := h.Snapshot();
    var r := h.Poll(Calm());
    DialsAtOnce(Calm(), v0, h.Snapshot(), r, Dial(0, ASKED));
    h.Outbound().NoTimer();
    h.Inbound().NoTimer();
  }

  /** A shutdown runs out of time before the substream is open. */
  method DialledTooLate() returns (h: RPCHandler)
    ensures fresh(h) && h.Valid() && h.state.Deactivated? && Dial(0, ASKED) in h.dialling && h.returned == [Close]
    ensures h.nextDelayKey == 0 && h.currentOutboundId == 0
    ensures Plain(h.Snapshot()) && h.dialQueue == [] && h.outbound == map[] && h.outboundDelay == map[]
  {
    hide InboundPart.Valid, OutboundPart.Valid, ReportPart.Valid, DialPart.Valid, ReportsSpec, Grows, LogsGrow, NothingToDo;
    h := Dialled();
    h.Shutdown(None);
    var r := h.Poll(Calm().(shutdownElapsed := true));
  }

  /** Then the substream opens. The next poll hands out a first error. */
  method LateOpened() returns (h: RPCHandler)
    ensures fresh(h) && h.Valid() && h.state.Deactivated? && |h.returned| == 2 && h.returned[0] == Close && From(h.returned[1], 0, E)
    ensures Plain(h.Snapshot()) && h.dialQueue == [] && h.outbound == map[0 := NewOutbound(ASKED, 0, 0)]
  {
    hide InboundPart.Valid, OutboundPart.Valid, ReportPart.Valid, DialPart.Valid, LogsGrow, Grows, DialPart.Resolve, NewOutbound, ReportsSpec, NothingToDo;
    h := DialledTooLate();
    h.OnFullyNegotiatedOutbound(Dial(0, ASKED));
    assert h.outbound == map[0 := NewOutbound(ASKED, 0, 0)];
    var r := h.Poll(Calm());
  }

  /** The poll after that closes the substream and queues a second one. */
  method LatePolled() returns (h: RPCHandler)
    ensures fresh(h) && h.Valid() && h.state.Deactivated? && |h.returned| == 2 && h.returned[0] == Close && From(h.returned[1], 0, E)
    ensures |h.eventsOut| == 1 && From(h.eventsOut[0], 0, E) && h.inbound == map[] && h.dialQueue == []
    ensures h.outbound == map[0 := NewOutbound(ASKED, 0, 0).(state := Closing)]
  {
    hide InboundPart.Valid, OutboundPart.Valid, ReportPart.Valid, DialPart.Valid, LogsGrow, Grows, PollSpec, NothingToDo;
    h := LateOpened();
    ghost var v0 := h.Snapshot();
    var r := h.Poll(Calm());
    OnePoll(Calm(), v0, h.Snapshot(), r, NewOutbound(ASKED, 0, 0));
  }

  method LateSubstream() returns (h: RPCHandler)
    ensures fresh(h) && h.Valid() && h.state.Deactivated? && |h.returned| == 3 && h.returned[0] == Close
    ensures From(h.returned[1], 0, E) && From(h.returned[2], 0, E)
    ensures Plain(h.Snapshot()) && h.dialQueue == [] && h.outbound == map[0 := NewOutbound(ASKED, 0, 0).(state := Closing)] && h.outboundDelay == map[0 := 0]
  {
    hide InboundPart.Valid, OutboundPart.Valid, ReportPart.Valid, DialPart.Valid, LogsGrow, Grows, ReportsSpec, NothingToDo;
    h := LatePolled();
    var r := h.Poll(Calm());
    h.Outbound().OneTimer(0);
    h.Inbound().NoTimer();
  }

  /** The timer of the substream runs out before it is closed, and a last poll hands out the third one. */
  method ThreeErrors() returns (h: RPCHandler)
    ensures h.Valid() && Project(h.returned, 0) == [E, E, E]
  {
    hide InboundPart.Valid, OutboundPart.Valid, ReportPart.Valid, DialPart.Valid, Project, LogsGrow, Grows, PollSpec, NothingToDo;
    h := LateSubstream();
    ghost var before, v0 := h.returned, h.Snapshot();
    var r := h.Poll(Calm().(outboundExpired := {0}));
    TimesOut(Calm().(outboundExpired := {0}), v0, h.Snapshot(), r);
    ThreeErrorsInLog(before[1], before[2], r.event);
    assert h.returned == [Close, before[1], before[2], r.event];
  }

  // ----- An end of stream after an error -----

  lemma ErrorThenEndInLog(a: Event, b: Event)
    requires From(a, 0, E) && From(b, 0, End)
    ensures Project([a, b], 0) == [E, End]
  {
    assert [a, b] == [a] + [b] && [a] == [] + [a];
    ProjectSnoc([], a, 0);
    ProjectSnoc([a], b, 0);
  }

  method Opened() returns (h: RPCHandler)
    ensures fresh(h) && h.Valid() && h.state.Active? && h.returned == []
    ensures Plain(h.Snapshot()) && h.dialQueue == [] && h.outbound == map[0 := NewOutbound(ASKED, 0, 0)]
  {
    hide InboundPart.Valid, OutboundPart.Valid, ReportPart.Valid, DialPart.Valid, LogsGrow, DialPart.Resolve, NewOutbound;
    h := Dialled();
    h.OnFullyNegotiatedOutbound(Dial(0, ASKED));
    assert h.outbound == map[0 := NewOutbound(ASKED, 0, 0)];
  }

  /** An error response closes the substream. */
  method ErrorResponse() returns (h: RPCHandler)
    ensures fresh(h) && h.Valid() && h.state.Active? && |h.returned| == 1 && From(h.returned[0], 0, E)
    ensures Plain(h.Snapshot()) && h.dialQueue == [] && h.outbound == map[0 := NewOutbound(ASKED, 0, 0).(state := Closing)]
  {
    hide InboundPart.Valid, OutboundPart.Valid, ReportPart.Valid, DialPart.Valid, LogsGrow, Grows, PollSpec, NothingToDo;
    h := Opened();
    ghost var v0 := h.Snapshot();
    var env := Calm().(read := _ => ErrorChunk(1));
    var r := h.Poll(env);
    OnePoll(env, v0, h.Snapshot(), r, NewOutbound(ASKED, 0, 0));
    h.Inbound().NoTimer();
  }

  /** An error response on a protocol with a terminator is followed by an end of stream when the substream closes. */
  method ErrorThenEnd() returns (h: RPCHandler)
    ensures h.Valid() && Project(h.returned, 0) == [E, End]
  {
    hide InboundPart.Valid, OutboundPart.Valid, ReportPart.Valid, DialPart.Valid, Project, LogsGrow, Grows, PollSpec, NothingToDo;
    h := ErrorResponse();
    ghost var v0, a := h.Snapshot(), h.returned[0];
    var env := Calm().(closed := _ => true);
    var r := h.Poll(env);
    OnePoll(env, v0, h.Snapshot(), r, NewOutbound(ASKED, 0, 0).(state := Closing));
    ErrorThenEndInLog(a, r.event);
    assert h.returned == [a, r.event];
  }
}
