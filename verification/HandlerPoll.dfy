/**
  What one poll of the handler does with its timers and substreams. Sockets, futures and timers are the environment:
  what they answer during one poll is a parameter of the poll.
*/
module HandlerPoll {
  import opened Common
  import opened HandlerModel
  import opened HandlerParts

  /** What polling a write or a close gives. */
  datatype SendPoll = SendPending | SendDone | SendFailed

  /** What polling an outbound substream gives: the decoder yields chunks, error chunks, the end or an error. */
  datatype ReadPoll = ReadPending | Chunk(payload: nat) | ErrorChunk(code: nat) | ReadEnd | ReadFailed

  /** The answers of the environment during one poll. `send(id, n)` is the n-th poll of inbound substream `id`. */
  datatype Env = Env(
    shutdownElapsed: bool,
    inboundExpired: set<DelayKey>,
    outboundExpired: set<DelayKey>,
    send: (SubstreamId, nat) -> SendPoll,
    read: SubstreamId -> ReadPoll,
    closed: SubstreamId -> bool)

  /** A failed attempt to open an outbound substream. */
  datatype UpgradeError = UpgradeTimeout | UpgradeIo | UpgradeUnsupported | UpgradeOther

  /** Histories only grow. */
  ghost predicate Grows(h: map<SubstreamId, InboundHistory>, h': map<SubstreamId, InboundHistory>) {
    forall id :: id in h ==>
      id in h' && h'[id].budget == h[id].budget && h[id].taken <= h'[id].taken && h[id].queued <= h'[id].queued
  }

  /** Outbound histories only grow, and their requests stay the same. */
  ghost predicate LogsGrow(h: map<SubstreamId, OutboundHistory>, h': map<SubstreamId, OutboundHistory>) {
    forall s :: s in h ==> s in h' && h'[s].asked == h[s].asked && h'[s].late == h[s].late && h[s].log <= h'[s].log
  }

  lemma LogsGrowSame(h: map<SubstreamId, OutboundHistory>)
    ensures LogsGrow(h, h)
  {}

  lemma LogsGrowNew(h: map<SubstreamId, OutboundHistory>, s: SubstreamId, x: OutboundHistory)
    requires s !in h
    ensures LogsGrow(h, h[s := x])
  {}

  lemma LogsGrowOne(h: map<SubstreamId, OutboundHistory>, s: SubstreamId, log: seq<Kind>)
    requires s in h && h[s].log <= log
    ensures LogsGrow(h, h[s := h[s].(log := log)])
  {}

  lemma LogsGrowOn(h: map<SubstreamId, OutboundHistory>, h': map<SubstreamId, OutboundHistory>, h'': map<SubstreamId, OutboundHistory>)
    requires LogsGrow(h, h') && LogsGrow(h', h'')
    ensures LogsGrow(h, h'')
  {}

  lemma GrowsNew(h: map<SubstreamId, InboundHistory>, id: SubstreamId, x: InboundHistory)
    requires id !in h
    ensures Grows(h, h[id := x])
  {}

  lemma GrowsSame(h: map<SubstreamId, InboundHistory>)
    ensures Grows(h, h)
  {}

  lemma ForwardSame(state: HandlerState)
    ensures Forward(state, state)
  {}

  lemma NothingIsQuiet(es: seq<Event>)
    requires es == []
    ensures AllQuiet(es)
  {}

  lemma GrowsOne(h: map<SubstreamId, InboundHistory>, id: SubstreamId, taken: seq<Message>)
    requires id in h && h[id].taken <= taken
    ensures Grows(h, h[id := h[id].(taken := taken)])
  {}

  lemma GrowsOn(h: map<SubstreamId, InboundHistory>, h': map<SubstreamId, InboundHistory>, h'': map<SubstreamId, InboundHistory>)
    requires Grows(h, h') && Grows(h', h'')
    ensures Grows(h, h'')
  {}

  /** The errors reported for the requests dropped by a shutdown, newest first. */
  function Failures(queue: seq<Dial>): seq<Event> {
    if queue == [] then []
    else [OutboundError(None, queue[|queue| - 1].id, Disconnected)] + Failures(queue[..|queue| - 1])
  }

  /** An inbound substream whose timer ran out: an unfinished response is ended with an error. */
  function TimedOut(info: InboundInfo): InboundInfo {
    var pending := info.pendingItems;
    info.(delayKey := None,
          pendingItems := if pending != [] && !pending[|pending| - 1].CloseAfter() then pending + [ErrorResponse(SERVER_ERROR)] else pending)
  }

  function TimedOutHistory(info: InboundInfo, h: InboundHistory): InboundHistory {
    var pending := info.pendingItems;
    if pending != [] && !pending[|pending| - 1].CloseAfter() then h.(queued := h.queued + [ErrorResponse(SERVER_ERROR)]) else h
  }

  predicate TimesOut(info: InboundInfo, expired: set<DelayKey>) {
    info.delayKey.Some? && info.delayKey.value in expired
  }

  /** Exactly the substreams whose timers expired are timed out. */
  ghost predicate TimedOutBy(expired: set<DelayKey>, inbound: map<SubstreamId, InboundInfo>, history: map<SubstreamId, InboundHistory>,
                             inbound': map<SubstreamId, InboundInfo>, history': map<SubstreamId, InboundHistory>) {
    && inbound'.Keys == inbound.Keys && history'.Keys == history.Keys
    && (forall id :: id in inbound ==> inbound'[id] == if TimesOut(inbound[id], expired) then TimedOut(inbound[id]) else inbound[id])
    && (forall id :: id in history ==>
          history'[id] == if id in inbound && TimesOut(inbound[id], expired) then TimedOutHistory(inbound[id], history[id]) else history[id])
  }

  /** Each of the timers is reported, by one event each. */
  ghost predicate TimeoutsReported(keys: set<DelayKey>, delay: DelayQueue, before: seq<Event>, after: seq<Event>) {
    && |after| == |before| + |keys| && before <= after
    && forall k :: k in keys ==> k in delay && InboundError(delay[k], StreamTimeout) in after[|before|..]
  }

  lemma ReportedNext(keys: set<DelayKey>, k: DelayKey, delay: DelayQueue, before: seq<Event>, after: seq<Event>)
    requires TimeoutsReported(keys, delay, before, after) && k in delay && k !in keys
    ensures TimeoutsReported(keys + {k}, delay, before, after + [InboundError(delay[k], StreamTimeout)])
  {
    var e := InboundError(delay[k], StreamTimeout);
    assert (after + [e])[|before|..] == after[|before|..] + [e];
  }

  /** The timers that are left to handle, and those that are gone. */
  ghost predicate Purging(expired: set<DelayKey>, delay0: DelayQueue, todo: set<DelayKey>, done: set<DelayKey>, delay: DelayQueue) {
    done !! todo && done + todo == expired * delay0.Keys && delay == delay0 - done
  }

  lemma PurgingStarts(expired: set<DelayKey>, delay: DelayQueue)
    ensures Purging(expired, delay, expired * delay.Keys, {}, delay)
  {
    assert delay == delay - {};
  }

  lemma PurgingGoesOn(expired: set<DelayKey>, delay0: DelayQueue, todo: set<DelayKey>, done: set<DelayKey>, delay: DelayQueue, k: DelayKey)
    requires Purging(expired, delay0, todo, done, delay) && k in todo
    ensures k in delay && k !in done && delay == delay0 - done
    ensures Purging(expired, delay0, todo - {k}, done + {k}, delay0 - (done + {k}))
  {
    assert k in expired * delay0.Keys;
  }

  lemma PurgingEnds(expired: set<DelayKey>, delay0: DelayQueue, done: set<DelayKey>, delay: DelayQueue)
    requires Purging(expired, delay0, {}, done, delay)
    ensures done == expired * delay0.Keys && delay == delay0 - expired
  {
    assert done == done + {};
    assert delay0 - done == delay0 - expired;
  }

  lemma NothingTimedOut(inbound: map<SubstreamId, InboundInfo>, history: map<SubstreamId, InboundHistory>, delay: DelayQueue, events: seq<Event>)
    ensures TimedOutBy({}, inbound, history, inbound, history) && TimeoutsReported({}, delay, events, events)
  {}

  lemma TimedOutNext(expired: set<DelayKey>, k: DelayKey, inbound: map<SubstreamId, InboundInfo>, history: map<SubstreamId, InboundHistory>,
                     mid: map<SubstreamId, InboundInfo>, midHistory: map<SubstreamId, InboundHistory>, id: SubstreamId)
    requires TimedOutBy(expired, inbound, history, mid, midHistory) && k !in expired
    requires id in mid && id in midHistory && mid[id].delayKey == Some(k)
    requires forall j :: j in mid && mid[j].delayKey == Some(k) ==> j == id
    ensures TimedOutBy(expired + {k}, inbound, history, mid[id := TimedOut(mid[id])], midHistory[id := TimedOutHistory(mid[id], midHistory[id])])
  {
    hide TimedOutHistory;
  }

  // ----- Driving one inbound substream -----

  /** Rearming a timer: the queue has no such operation on an absent key. */
  method Rearm(delay: DelayQueue, k: Option<DelayKey>)
    requires k.Some? ==> k.value in delay
  {}

  /** The message in the socket is the one taken last. */
  lemma BusyWithTheLast(info: InboundInfo, taken: seq<Message>, queued: seq<Message>, budget: nat)
    requires InboundOk(info, taken, queued, budget)
    ensures info.state.Idle? || info.state.Busy?
    ensures info.state.Busy? ==> taken != [] && taken[|taken| - 1] == info.state.message && (info.state.lastChunk ==> |taken| == budget)
  {}

  /** What is reported when a substream is given up: a failed write or close, and an unfinished response cut off by the deactivation. */
  function GivenUpErrors(info: InboundInfo, deactivated: bool, answer: SendPoll): seq<RpcError> {
    (if answer.SendFailed? then [OtherError] else []) +
    (if deactivated && info.state.Idle? && info.pendingItems != [] && !info.pendingItems[|info.pendingItems| - 1].CloseAfter() then [Disconnected] else [])
  }

  /**
    Driving an inbound substream until its socket is not ready or there is nothing to send. `left` is none if it was
    given up: after a failure, an error, a termination or the last chunk, or closed after deactivation. `polls` counts
    the polls of the socket, one for each message taken and one for the message that was being sent.
  */
  ghost predicate DriveOk(id: SubstreamId, info0: InboundInfo, h: InboundHistory, deactivated: bool, send: (SubstreamId, nat) -> SendPoll,
                          left: Option<InboundInfo>, errors: seq<RpcError>, taken: seq<Message>, polls: nat) {
    && InboundHistoryOk(taken, h.queued, h.budget) && h.taken <= taken
    && (if deactivated then taken == h.taken else |taken| == |h.taken| + polls - (if info0.state.Busy? then 1 else 0))
    && (forall i :: 0 <= i < polls - 1 ==> send(id, i).SendDone?)
    && match left
       case Some(info) =>
         && info.delayKey == info0.delayKey && info.protocol == info0.protocol && InboundOk(info, taken, h.queued, h.budget) && errors == []
         && (if info.state.Busy? || (deactivated && info0.state.Idle?) then polls > 0 && send(id, polls - 1).SendPending?
             else (polls > 0 ==> send(id, polls - 1).SendDone?) && (!deactivated ==> info.pendingItems == []))
       case None =>
         && polls > 0 && !send(id, polls - 1).SendPending? && errors == GivenUpErrors(info0, deactivated, send(id, polls - 1))
         && (!send(id, polls - 1).SendFailed? && !(deactivated && info0.state.Idle?) ==>
               taken != [] && (taken[|taken| - 1].CloseAfter() || |taken| == h.budget))
  }

  /** The middle of such a drive, after `n` polls that all succeeded. */
  ghost predicate Driving(id: SubstreamId, info0: InboundInfo, h: InboundHistory, deactivated: bool, send: (SubstreamId, nat) -> SendPoll,
                          info: InboundInfo, taken: seq<Message>, n: nat) {
    && (info0.state.Idle? || info0.state.Busy?)
    && InboundOk(info, taken, h.queued, h.budget) && info.delayKey == info0.delayKey && info.protocol == info0.protocol
    && h.taken <= taken && (n > 0 || info0.state.Busy? ==> info.state.Busy?)
    && (if deactivated then info == info0 && taken == h.taken && n == 0
        else |taken| == |h.taken| + n + if info0.state.Idle? && info.state.Busy? then 1 else 0)
    && (forall i :: 0 <= i < n ==> send(id, i).SendDone?)
  }

  lemma DrivingStarts(id: SubstreamId, info: InboundInfo, h: InboundHistory, deactivated: bool, send: (SubstreamId, nat) -> SendPoll)
    requires InboundOk(info, h.taken, h.queued, h.budget)
    ensures Driving(id, info, h, deactivated, send, info, h.taken, 0)
  {}

  lemma DrivingState(id: SubstreamId, info0: InboundInfo, h: InboundHistory, deactivated: bool, send: (SubstreamId, nat) -> SendPoll,
                     info: InboundInfo, taken: seq<Message>, n: nat)
    requires Driving(id, info0, h, deactivated, send, info, taken, n)
    ensures (info.state.Idle? || info.state.Busy?) && info.delayKey == info0.delayKey && info.maxRemainingChunks >= 1
  {}

  lemma IdleStep(id: SubstreamId, info0: InboundInfo, h: InboundHistory, deactivated: bool, send: (SubstreamId, nat) -> SendPoll,
                 info: InboundInfo, taken: seq<Message>, n: nat)
    requires Driving(id, info0, h, deactivated, send, info, taken, n) && info.state.Idle?
    ensures !deactivated && info.pendingItems == [] ==> DriveOk(id, info0, h, deactivated, send, Some(info), [], taken, n)
    ensures !deactivated && info.pendingItems != [] ==> Driving(id, info0, h, deactivated, send, Take(info), taken + [info.pendingItems[0]], n)
    ensures deactivated && send(id, n).SendPending? ==> DriveOk(id, info0, h, deactivated, send, Some(info), [], taken, n + 1)
    ensures deactivated && !send(id, n).SendPending? ==> DriveOk(id, info0, h, deactivated, send, None, GivenUpErrors(info, true, send(id, n)), taken, n + 1)
  {
    hide InboundOk, InboundHistoryOk, DriveOk, Driving, Take, GivenUpErrors;
    if deactivated {
      ClosingStep(id, info0, h, send, info, taken, n);
    } else if info.pendingItems == [] {
      DrainedStep(id, info0, h, send, info, taken, n);
    } else {
      TakeStep(id, info0, h, send, info, taken, n);
    }
  }

  lemma ClosingStep(id: SubstreamId, info0: InboundInfo, h: InboundHistory, send: (SubstreamId, nat) -> SendPoll,
                    info: InboundInfo, taken: seq<Message>, n: nat)
    requires Driving(id, info0, h, true, send, info, taken, n) && info.state.Idle?
    ensures send(id, n).SendPending? ==> DriveOk(id, info0, h, true, send, Some(info), [], taken, n + 1)
    ensures !send(id, n).SendPending? ==> DriveOk(id, info0, h, true, send, None, GivenUpErrors(info, true, send(id, n)), taken, n + 1)
  {
    hide InboundOk, InboundHistoryOk;
    OkHasOkHistory(info, taken, h.queued, h.budget);
  }

  lemma DrainedStep(id: SubstreamId, info0: InboundInfo, h: InboundHistory, send: (SubstreamId, nat) -> SendPoll,
                    info: InboundInfo, taken: seq<Message>, n: nat)
    requires Driving(id, info0, h, false, send, info, taken, n) && info.state.Idle? && info.pendingItems == []
    ensures DriveOk(id, info0, h, false, send, Some(info), [], taken, n)
  {
    hide InboundOk, InboundHistoryOk;
    OkHasOkHistory(info, taken, h.queued, h.budget);
  }

  lemma TakeStep(id: SubstreamId, info0: InboundInfo, h: InboundHistory, send: (SubstreamId, nat) -> SendPoll,
                 info: InboundInfo, taken: seq<Message>, n: nat)
    requires Driving(id, info0, h, false, send, info, taken, n) && info.state.Idle? && info.pendingItems != []
    ensures Driving(id, info0, h, false, send, Take(info), taken + [info.pendingItems[0]], n)
  {
    hide InboundOk;
    TakeOk(info, taken, h.queued, h.budget);
    assert h.taken <= taken <= taken + [info.pendingItems[0]];
  }

  lemma BusyStep(id: SubstreamId, info0: InboundInfo, h: InboundHistory, deactivated: bool, send: (SubstreamId, nat) -> SendPoll,
                 info: InboundInfo, taken: seq<Message>, n: nat)
    requires Driving(id, info0, h, deactivated, send, info, taken, n) && info.state.Busy?
    ensures send(id, n).SendPending? ==> DriveOk(id, info0, h, deactivated, send, Some(info), [], taken, n + 1)
    ensures send(id, n).SendFailed? ==> DriveOk(id, info0, h, deactivated, send, None, [OtherError], taken, n + 1)
    ensures send(id, n).SendDone? && (info.state.message.CloseAfter() || info.state.lastChunk) ==>
              DriveOk(id, info0, h, deactivated, send, None, [], taken, n + 1)
  {
    hide InboundOk, InboundHistoryOk;
    OkHasOkHistory(info, taken, h.queued, h.budget);
    BusyWithTheLast(info, taken, h.queued, h.budget);
  }

  /** A chunk was sent and more may follow. */
  lemma SentStep(id: SubstreamId, info0: InboundInfo, h: InboundHistory, deactivated: bool, send: (SubstreamId, nat) -> SendPoll,
                 info: InboundInfo, taken: seq<Message>, n: nat)
    requires Driving(id, info0, h, deactivated, send, info, taken, n) && info.state.Busy? && info.maxRemainingChunks >= 1
    requires send(id, n).SendDone? && !info.state.message.CloseAfter() && !info.state.lastChunk
    ensures var next := info.(state := Idle, maxRemainingChunks := info.maxRemainingChunks - 1);
            if deactivated || info.pendingItems == [] then DriveOk(id, info0, h, deactivated, send, Some(next), [], taken, n + 1)
            else Driving(id, info0, h, deactivated, send, Take(next), taken + [info.pendingItems[0]], n + 1)
  {
    hide InboundOk, InboundHistoryOk, Driving, DriveOk, Take;
    if deactivated || info.pendingItems == [] {
      SentLast(id, info0, h, deactivated, send, info, taken, n);
    } else {
      SentMore(id, info0, h, send, info, taken, n);
    }
  }

  lemma SentLast(id: SubstreamId, info0: InboundInfo, h: InboundHistory, deactivated: bool, send: (SubstreamId, nat) -> SendPoll,
                 info: InboundInfo, taken: seq<Message>, n: nat)
    requires Driving(id, info0, h, deactivated, send, info, taken, n) && info.state.Busy? && info.maxRemainingChunks >= 1
    requires send(id, n).SendDone? && !info.state.message.CloseAfter() && !info.state.lastChunk && (deactivated || info.pendingItems == [])
    ensures DriveOk(id, info0, h, deactivated, send, Some(info.(state := Idle, maxRemainingChunks := info.maxRemainingChunks - 1)), [], taken, n + 1)
  {
    hide InboundOk, InboundHistoryOk;
    SentOk(info, taken, h.queued, h.budget);
    OkHasOkHistory(info.(state := Idle, maxRemainingChunks := info.maxRemainingChunks - 1), taken, h.queued, h.budget);
  }

  lemma SentMore(id: SubstreamId, info0: InboundInfo, h: InboundHistory, send: (SubstreamId, nat) -> SendPoll,
                 info: InboundInfo, taken: seq<Message>, n: nat)
    requires Driving(id, info0, h, false, send, info, taken, n) && info.state.Busy? && info.maxRemainingChunks >= 1
    requires send(id, n).SendDone? && !info.state.message.CloseAfter() && !info.state.lastChunk && info.pendingItems != []
    ensures Driving(id, info0, h, false, send, Take(info.(state := Idle, maxRemainingChunks := info.maxRemainingChunks - 1)), taken + [info.pendingItems[0]], n + 1)
  {
    hide InboundOk;
    var next := info.(state := Idle, maxRemainingChunks := info.maxRemainingChunks - 1);
    SentOk(info, taken, h.queued, h.budget);
    TakeOk(next, taken, h.queued, h.budget);
    assert h.taken <= taken <= taken + [info.pendingItems[0]];
  }

  /** Drives one inbound substream as far as it goes. Its state is poisoned while it is worked on. */
  method DriveInbound(id: SubstreamId, info0: InboundInfo, deactivated: bool, send: (SubstreamId, nat) -> SendPoll, delay: DelayQueue, ghost h: InboundHistory)
    returns (left: Option<InboundInfo>, errors: seq<RpcError>, ghost taken: seq<Message>, ghost polls: nat)
    requires InboundOk(info0, h.taken, h.queued, h.budget)
    requires info0.delayKey.Some? ==> info0.delayKey.value in delay
    ensures DriveOk(id, info0, h, deactivated, send, left, errors, taken, polls)
  {
    hide InboundOk, Driving, DriveOk;
    var info, n := info0, 0;
    taken := h.taken;
    DrivingStarts(id, info0, h, deactivated, send);
    while true
      invariant Driving(id, info0, h, deactivated, send, info, taken, n)
      decreases |info.pendingItems|
    {
      DrivingState(id, info0, h, deactivated, send, info, taken, n);
      var state := info.state;
      ghost var was := info;
      info := info.(state := Poisoned);
      match state
      case Idle =>
        IdleStep(id, info0, h, deactivated, send, was, taken, n);
        if !deactivated {
          if info.pendingItems == [] {
            return Some(info.(state := Idle)), [], taken, n;
          }
          taken := taken + [info.pendingItems[0]];
          info := Take(info);
        } else {
          var answer := send(id, n);
          if answer.SendPending? {
            return Some(info.(state := Idle)), [], taken, n + 1;
          }
          errors := (if answer.SendFailed? then [OtherError] else []) +
                    (if info.pendingItems != [] && !info.pendingItems[|info.pendingItems| - 1].CloseAfter() then [Disconnected] else []);
          return None, errors, taken, n + 1;
        }
      case Busy(message, lastChunk) =>
        BusyStep(id, info0, h, deactivated, send, was, taken, n);
        var answer := send(id, n);
        if answer.SendPending? {
          return Some(info.(state := state)), [], taken, n + 1;
        }
        if answer.SendFailed? {
          return None, [OtherError], taken, n + 1;
        }
        if message.CloseAfter() || lastChunk {
          return None, [], taken, n + 1;
        }
        SentStep(id, info0, h, deactivated, send, was, taken, n);
        n := n + 1;
        info := info.(maxRemainingChunks := info.maxRemainingChunks - 1);
        Rearm(delay, info.delayKey);
        if deactivated || info.pendingItems == [] {
          return Some(info.(state := Idle)), [], taken, n;
        }
        taken := taken + [info.pendingItems[0]];
        info := Take(info);
    }
  }

  // ----- Driving one outbound substream -----

  function Extended(log: seq<Kind>, k: Option<Kind>): seq<Kind> {
    if k.Some? then log + [k.value] else log
  }

  /** Kinds appended to the log of a substream that still waits for responses. */
  lemma PendingAppend(info: OutboundInfo, h: OutboundHistory, k: Kind)
    requires OutboundOk(info, h.asked, h.late, h.log) && info.state.RequestPendingResponse?
    requires Sensible(h.asked) && h.asked.maxResponses > 0 && (k != E ==> !h.late)
    ensures OutboundHistoryOk(h.asked, h.late, h.log + [k])
    ensures k == E ==> OutboundOk(info.(state := Closing), h.asked, h.late, h.log + [k])
    ensures k == R && Tally(h.log, R) + 1 == Limit(h.asked) ==> OutboundOk(info.(state := Closing), h.asked, h.late, h.log + [k])
    ensures k == R && !ExpectsOne(h.asked.protocol) && info.maxRemainingChunks.value > 1 ==>
              OutboundOk(info.(maxRemainingChunks := Some(info.maxRemainingChunks.value - 1)), h.asked, h.late, h.log + [k])
  {
    Appended(h.log, k);
  }

  lemma ClosingAppend(info: OutboundInfo, h: OutboundHistory)
    requires OutboundOk(info, h.asked, h.late, h.log) && info.state.Closing?
    ensures OutboundHistoryOk(h.asked, h.late, h.log + [End])
  {
    Appended(h.log, End);
  }

  /** What one poll of an outbound substream reports. */
  function Reported(id: SubstreamId, info: OutboundInfo, deactivated: bool, read: ReadPoll, closed: bool): Option<Event> {
    match info.state
    case Closing => if closed && HasTerminator(info.proto) then Some(EndOfStream(id, info.reqId)) else None
    case PoisonedOut => None
    case RequestPendingResponse(request) =>
      if deactivated then Some(OutboundError(Some(id), info.reqId, Disconnected))
      else match read
           case ReadPending => None
           case Chunk(payload) => Some(Response(id, info.reqId, payload))
           case ErrorChunk(code) => Some(OutboundError(Some(id), info.reqId, ErrorCode(code)))
           case ReadEnd => if ExpectsOne(request.protocol) then Some(OutboundError(Some(id), info.reqId, IncompleteStream))
                           else Some(EndOfStream(id, info.reqId))
           case ReadFailed => Some(OutboundError(Some(id), info.reqId, OtherError))
  }

  /** What one poll leaves of an outbound substream. */
  function Left(info: OutboundInfo, deactivated: bool, read: ReadPoll, closed: bool): Option<OutboundInfo> {
    match info.state
    case Closing => if closed then None else Some(info)
    case PoisonedOut => None
    case RequestPendingResponse(request) =>
      if deactivated || read.ErrorChunk? then Some(info.(state := Closing))
      else match read
           case ReadPending => Some(info)
           case Chunk(_) =>
             if ExpectsOne(request.protocol) || info.maxRemainingChunks.None? || info.maxRemainingChunks.value <= 1 then Some(info.(state := Closing))
             else Some(info.(maxRemainingChunks := Some(info.maxRemainingChunks.value - 1)))
           case _ => None
  }

  /** What is left after a poll and what the poll reports, which fits after everything reported before. */
  ghost predicate PollOk(info0: OutboundInfo, h: OutboundHistory, left: Option<OutboundInfo>, id: SubstreamId, event: Option<Event>, k: Option<Kind>) {
    && event.Some? == k.Some? && (event.Some? ==> From(event.value, id, k.value))
    && (if left.Some? then left.value.delayKey == info0.delayKey && OutboundOk(left.value, h.asked, h.late, Extended(h.log, k))
        else OutboundHistoryOk(h.asked, h.late, Extended(h.log, k)))
  }

  lemma ChunkPoll(info: OutboundInfo, h: OutboundHistory, id: SubstreamId, payload: nat)
    requires OutboundOk(info, h.asked, h.late, h.log) && Sensible(h.asked) && h.asked.maxResponses > 0
    requires info.state.RequestPendingResponse? && !h.late
    ensures var left := Left(info, false, Chunk(payload), false);
            && left.Some? && (left.value.state.Closing? <==> Tally(h.log + [R], R) == Limit(h.asked))
            && PollOk(info, h, left, id, Some(Response(id, info.reqId, payload)), Some(R))
  {
    PendingAppend(info, h, R);
    TallySnoc(h.log, R, R);
    hide OutboundHistoryOk, InOrder, Tally;
  }

  /** An error closes the substream or ends it. */
  lemma ErrorPoll(info: OutboundInfo, h: OutboundHistory, id: SubstreamId, error: RpcError)
    requires OutboundOk(info, h.asked, h.late, h.log) && Sensible(h.asked) && h.asked.maxResponses > 0 && info.state.RequestPendingResponse?
    ensures PollOk(info, h, Some(info.(state := Closing)), id, Some(OutboundError(Some(id), info.reqId, error)), Some(E))
    ensures PollOk(info, h, None, id, Some(OutboundError(Some(id), info.reqId, error)), Some(E))
  {
    PendingAppend(info, h, E);
  }

  lemma EndPoll(info: OutboundInfo, h: OutboundHistory, id: SubstreamId)
    requires OutboundOk(info, h.asked, h.late, h.log) && Sensible(h.asked) && h.asked.maxResponses > 0 && info.state.RequestPendingResponse? && !h.late
    ensures PollOk(info, h, None, id, Some(EndOfStream(id, info.reqId)), Some(End))
  {
    PendingAppend(info, h, End);
  }

  lemma ClosePoll(info: OutboundInfo, h: OutboundHistory, id: SubstreamId)
    requires OutboundOk(info, h.asked, h.late, h.log) && info.state.Closing?
    ensures PollOk(info, h, None, id, Some(EndOfStream(id, info.reqId)), Some(End)) && PollOk(info, h, None, id, None, None)
  {
    ClosingAppend(info, h);
    OutboundOkHasOkHistory(info, h.asked, h.late, h.log);
  }

  lemma IdlePoll(info: OutboundInfo, h: OutboundHistory, id: SubstreamId)
    requires OutboundOk(info, h.asked, h.late, h.log)
    ensures PollOk(info, h, Some(info), id, None, None)
    ensures info.state.RequestPendingResponse? && !h.late ==> Tally(h.log, E) == 0
  {}

  /** Reads from a substream that waits for responses. Its state is poisoned until it is put back. */
  method ReadOutbound(id: SubstreamId, info0: OutboundInfo, read: ReadPoll, delay: DelayQueue, ghost h: OutboundHistory)
    returns (left: Option<OutboundInfo>, event: Option<Event>, ghost k: Option<Kind>)
    requires OutboundOk(info0, h.asked, h.late, h.log) && Sensible(h.asked) && h.asked.maxResponses > 0
    requires info0.state.RequestPendingResponse? && !h.late && info0.delayKey in delay
    ensures PollOk(info0, h, left, id, event, k)
    ensures event == Reported(id, info0, false, read, false) && left == Left(info0, false, read, false)
    ensures read.Chunk? ==> left.Some? && (left.value.state.Closing? <==> Tally(h.log + [R], R) == Limit(h.asked))
    ensures Tally(h.log, E) == 0
  {
    hide OutboundOk, PollOk, Tally, Limit, Sensible;
    IdlePoll(info0, h, id);
    var info, request := info0.(state := PoisonedOut), info0.state.request;
    match read
    case ReadPending =>
      return Some(info.(state := RequestPendingResponse(request))), None, None;
    case Chunk(payload) =>
      ChunkPoll(info0, h, id, payload);
      var remaining := if info.maxRemainingChunks.Some? && info.maxRemainingChunks.value > 0 then info.maxRemainingChunks.value - 1 else 0;
      if ExpectsOne(request.protocol) || remaining == 0 {
        info := info.(state := Closing);
      } else {
        info := info.(state := RequestPendingResponse(request), maxRemainingChunks := Some(remaining));
        Rearm(delay, Some(info.delayKey));
      }
      return Some(info), Some(Response(id, info.reqId, payload)), Some(R);
    case ErrorChunk(code) =>
      ErrorPoll(info0, h, id, ErrorCode(code));
      return Some(info.(state := Closing)), Some(OutboundError(Some(id), info.reqId, ErrorCode(code))), Some(E);
    case ReadEnd =>
      if ExpectsOne(request.protocol) {
        ErrorPoll(info0, h, id, IncompleteStream);
        return None, Some(OutboundError(Some(id), info.reqId, IncompleteStream)), Some(E);
      }
      EndPoll(info0, h, id);
      return None, Some(EndOfStream(id, info.reqId)), Some(End);
    case ReadFailed =>
      ErrorPoll(info0, h, id, OtherError);
      return None, Some(OutboundError(Some(id), info.reqId, OtherError)), Some(E);
  }

  /** Whether a report waits in the queue: only that of a substream closed by the deactivation does. */
  predicate Waits(info: OutboundInfo, deactivated: bool) {
    deactivated && info.state.RequestPendingResponse?
  }

  /**
    One poll of an outbound substream. An end of stream follows an error exactly when a closing substream with a
    terminator is closed: before that its timer may run out instead.
  */
  method DriveOutbound(id: SubstreamId, info0: OutboundInfo, deactivated: bool, read: ReadPoll, closed: bool, delay: DelayQueue, ghost h: OutboundHistory)
    returns (left: Option<OutboundInfo>, event: Option<Event>, ghost k: Option<Kind>)
    requires OutboundOk(info0, h.asked, h.late, h.log) && Sensible(h.asked) && h.asked.maxResponses > 0
    requires h.late ==> deactivated
    requires info0.delayKey in delay
    ensures PollOk(info0, h, left, id, event, k)
    ensures event == Reported(id, info0, deactivated, read, closed) && left == Left(info0, deactivated, read, closed)
    ensures Waits(info0, deactivated) ==> event.Some? && left.Some? && k == Some(E)
    ensures info0.state.RequestPendingResponse? && !deactivated && read.Chunk? ==>
              left.Some? && (left.value.state.Closing? <==> Tally(h.log + [R], R) == Limit(h.asked))
    ensures Tally(h.log, E) > 0 ==> (k == Some(End) <==> info0.state.Closing? && closed && HasTerminator(info0.proto))
  {
    NeverPoisoned(info0, h);
    hide OutboundOk, PollOk, Tally, Limit, Sensible;
    IdlePoll(info0, h, id);
    var info := info0.(state := PoisonedOut);
    if info0.state.RequestPendingResponse? {
      if deactivated {
        ErrorPoll(info0, h, id, Disconnected);
        return Some(info.(state := Closing)), Some(OutboundError(Some(id), info.reqId, Disconnected)), Some(E);
      }
      left, event, k := ReadOutbound(id, info0, read, delay, h);
    } else {
      if !closed {
        return Some(info.(state := Closing)), None, None;
      }
      ClosePoll(info0, h, id);
      if HasTerminator(info0.proto) {
        return None, Some(EndOfStream(id, info0.reqId)), Some(End);
      }
      return None, None, None;
    }
  }

  lemma NeverPoisoned(info: OutboundInfo, h: OutboundHistory)
    requires OutboundOk(info, h.asked, h.late, h.log)
    ensures info.state.RequestPendingResponse? || info.state.Closing?
  {}

  lemma OthersSame<V>(m: map<SubstreamId, V>, m': map<SubstreamId, V>, id: SubstreamId)
    requires m - {id} == m' - {id}
    ensures forall j :: j != id ==> (j in m <==> j in m') && (j in m ==> m[j] == m'[j])
  {
    forall j | j != id
      ensures (j in m <==> j in m') && (j in m ==> m[j] == m'[j])
    {
      assert (j in m - {id}) == (j in m' - {id});
      assert j in m ==> (m - {id})[j] == (m' - {id})[j];
    }
  }

  lemma OthersKept(es: seq<Event>, e: Event, id: SubstreamId, k: Kind)
    requires From(e, id, k)
    ensures forall s :: s != id ==> Project(es + [e], s) == Project(es, s)
  {
    hide Project;
    forall s | s != id
      ensures Project(es + [e], s) == Project(es, s)
    {
      ProjectSnoc(es, e, s);
    }
  }

  /** Nothing is left to send on an idle substream. */
  ghost predicate Drained(inbound: map<SubstreamId, InboundInfo>, ids: set<SubstreamId>) {
    forall id :: id in ids && id in inbound && inbound[id].state.Idle? ==> inbound[id].pendingItems == []
  }

  /** Every waiting substream was polled and had nothing to read. */
  ghost predicate Listened(outbound: map<SubstreamId, OutboundInfo>, ids: set<SubstreamId>, read: SubstreamId -> ReadPoll) {
    forall id :: id in ids && id in outbound && outbound[id].state.RequestPendingResponse? ==> read(id).ReadPending?
  }

  /** Timers and substreams had nothing more to report or to send. */
  ghost predicate NothingToDo(env: Env, outbound: map<SubstreamId, OutboundInfo>, outboundDelay: DelayQueue,
                              inbound: map<SubstreamId, InboundInfo>, deactivated: bool) {
    && env.outboundExpired * outboundDelay.Keys == {}
    && (!deactivated ==> Drained(inbound, inbound.Keys) && Listened(outbound, outbound.Keys, env.read))
  }

  // ----- One poll, as a relation between what is before and after -----

  /** What a poll reads and changes. */
  datatype View = View(
    events: seq<Event>,
    inbound: map<SubstreamId, InboundInfo>,
    inboundDelay: DelayQueue,
    inboundHistory: map<SubstreamId, InboundHistory>,
    outbound: map<SubstreamId, OutboundInfo>,
    outboundDelay: DelayQueue,
    dialQueue: seq<Dial>,
    dialNegotiated: nat,
    state: HandlerState)

  ghost predicate SameDials(v0: View, v: View) {
    v.dialQueue == v0.dialQueue && v.dialNegotiated == v0.dialNegotiated && v.state == v0.state
  }

  function At<V>(m: map<SubstreamId, V>, id: SubstreamId): Option<V> {
    if id in m then Some(m[id]) else None
  }

  // Timers.

  /** Timer `k` ran out: its substream is dropped and its request reported. */
  ghost predicate ExpiredAt(k: DelayKey, expired: set<DelayKey>, outbound: map<SubstreamId, OutboundInfo>, delay: DelayQueue,
                            outbound': map<SubstreamId, OutboundInfo>, delay': DelayQueue, e: Event) {
    && k in expired && k in delay && delay[k] in outbound
    && outbound' == outbound - {delay[k]} && delay' == delay - {k}
    && e == OutboundError(Some(delay[k]), outbound[delay[k]].reqId, StreamTimeout)
  }

  /** At most one outbound timer is handled, and one that ran out is. */
  ghost predicate OutboundTimers(expired: set<DelayKey>, outbound: map<SubstreamId, OutboundInfo>, delay: DelayQueue,
                                 outbound': map<SubstreamId, OutboundInfo>, delay': DelayQueue, r: Option<Event>) {
    if expired * delay.Keys == {} then r.None? && outbound' == outbound && delay' == delay
    else r.Some? && exists k :: ExpiredAt(k, expired, outbound, delay, outbound', delay', r.value)
  }

  ghost predicate TimersSpec(env: Env, v0: View, v: View, r: Option<Event>) {
    var keys := env.inboundExpired * v0.inboundDelay.Keys;
    && TimedOutBy(keys, v0.inbound, v0.inboundHistory, v.inbound, v.inboundHistory)
    && v.inboundDelay == v0.inboundDelay - env.inboundExpired
    && TimeoutsReported(keys, v0.inboundDelay, v0.events, v.events)
    && OutboundTimers(env.outboundExpired, v0.outbound, v0.outboundDelay, v.outbound, v.outboundDelay, r)
    && SameDials(v0, v)
  }

  // Inbound substreams.

  function InboundErrors(id: SubstreamId, errors: seq<RpcError>): seq<Event> {
    seq(|errors|, i requires 0 <= i < |errors| => InboundError(id, errors[i]))
  }

  /** The errors reported for an inbound substream, in order. */
  function ErrorsFor(es: seq<Event>, id: SubstreamId): seq<RpcError> {
    if es == [] then []
    else ErrorsFor(es[..|es| - 1], id) + match es[|es| - 1] case InboundError(j, e) => (if j == id then [e] else []) case _ => []
  }

  lemma ErrorsForSnoc(es: seq<Event>, id: SubstreamId, e: RpcError, j: SubstreamId)
    ensures ErrorsFor(es + [InboundError(id, e)], j) == ErrorsFor(es, j) + if j == id then [e] else []
  {
    assert (es + [InboundError(id, e)])[..|es|] == es;
  }

  lemma InboundErrorsSnoc(id: SubstreamId, errors: seq<RpcError>)
    requires errors != []
    ensures InboundErrors(id, errors) == InboundErrors(id, errors[..|errors| - 1]) + [InboundError(id, errors[|errors| - 1])]
  {}

  lemma {:induction false} ErrorsForMore(es: seq<Event>, id: SubstreamId, errors: seq<RpcError>, j: SubstreamId)
    ensures ErrorsFor(es + InboundErrors(id, errors), j) == ErrorsFor(es, j) + if j == id then errors else []
    decreases |errors|
  {
    hide ErrorsFor;
    if errors == [] {
      assert es + InboundErrors(id, errors) == es;
      assert ErrorsFor(es, j) + [] == ErrorsFor(es, j);
    } else {
      hide InboundErrors;
      var init, last := errors[..|errors| - 1], errors[|errors| - 1];
      ErrorsForMore(es, id, init, j);
      InboundErrorsSnoc(id, errors);
      assert es + InboundErrors(id, errors) == es + InboundErrors(id, init) + [InboundError(id, last)];
      ErrorsForSnoc(es + InboundErrors(id, init), id, last, j);
      assert errors == init + [last];
    }
  }

  /** A substream was driven, with these errors. */
  ghost predicate Driven(id: SubstreamId, info0: InboundInfo, h0: InboundHistory, deactivated: bool, send: (SubstreamId, nat) -> SendPoll,
                         left: Option<InboundInfo>, h: InboundHistory, errors: seq<RpcError>) {
    h == h0.(taken := h.taken) && exists polls :: DriveOk(id, info0, h0, deactivated, send, left, errors, h.taken, polls)
  }

  /** The substreams `ids` were driven, each with its own errors among the new events, and the others are as before. */
  ghost predicate InboundPolled(before: map<SubstreamId, InboundInfo>, history0: map<SubstreamId, InboundHistory>,
                                after: map<SubstreamId, InboundInfo>, history: map<SubstreamId, InboundHistory>,
                                deactivated: bool, send: (SubstreamId, nat) -> SendPoll, ids: set<SubstreamId>, news: seq<Event>) {
    && after.Keys <= before.Keys <= history0.Keys && history.Keys == history0.Keys
    && (forall id :: id in before && id in ids ==>
          Driven(id, before[id], history0[id], deactivated, send, At(after, id), history[id], ErrorsFor(news, id)))
    && (forall id :: id in history0 && !(id in before && id in ids) ==> history[id] == history0[id] && ErrorsFor(news, id) == [])
    && (forall id :: id in before && id !in ids ==> At(after, id) == Some(before[id]))
    && (forall e :: e in news ==> e.InboundError? && e.id in before && e.id in ids)
  }

  lemma InboundPolledNext(before: map<SubstreamId, InboundInfo>, history0: map<SubstreamId, InboundHistory>,
                          mid: map<SubstreamId, InboundInfo>, midHistory: map<SubstreamId, InboundHistory>, after: map<SubstreamId, InboundInfo>,
                          deactivated: bool, send: (SubstreamId, nat) -> SendPoll, ids: set<SubstreamId>, news: seq<Event>,
                          id: SubstreamId, errors: seq<RpcError>, taken: seq<Message>, polls: nat)
    requires InboundPolled(before, history0, mid, midHistory, deactivated, send, ids, news) && id in before && id !in ids
    requires after - {id} == mid - {id}
    requires DriveOk(id, before[id], history0[id], deactivated, send, At(after, id), errors, taken, polls)
    ensures InboundPolled(before, history0, after, midHistory[id := midHistory[id].(taken := taken)], deactivated, send, ids + {id},
                          news + InboundErrors(id, errors))
  {
    hide DriveOk, ErrorsFor, InboundErrors, Driven;
    OthersSame(mid, after, id);
    NewErrors(news, id, errors);
    OnlyItsErrors(id, errors);
    DrivenBy(id, before[id], history0[id], deactivated, send, At(after, id), history0[id].(taken := taken), errors, polls);
    assert ErrorsFor(news, id) + errors == errors;
  }

  lemma NewErrors(news: seq<Event>, id: SubstreamId, errors: seq<RpcError>)
    ensures forall j :: j != id ==> ErrorsFor(news + InboundErrors(id, errors), j) == ErrorsFor(news, j)
    ensures ErrorsFor(news + InboundErrors(id, errors), id) == ErrorsFor(news, id) + errors
  {
    hide ErrorsFor, InboundErrors;
    forall j ensures ErrorsFor(news + InboundErrors(id, errors), j) == if j == id then ErrorsFor(news, j) + errors else ErrorsFor(news, j) {
      ErrorsForMore(news, id, errors, j);
      assert ErrorsFor(news, j) + [] == ErrorsFor(news, j);
    }
  }

  lemma DrivenBy(id: SubstreamId, info0: InboundInfo, h0: InboundHistory, deactivated: bool, send: (SubstreamId, nat) -> SendPoll,
                 left: Option<InboundInfo>, h: InboundHistory, errors: seq<RpcError>, polls: nat)
    requires DriveOk(id, info0, h0, deactivated, send, left, errors, h.taken, polls) && h == h0.(taken := h.taken)
    ensures Driven(id, info0, h0, deactivated, send, left, h, errors)
  {
    hide DriveOk;
  }

  lemma OnlyItsErrors(id: SubstreamId, errors: seq<RpcError>)
    ensures forall e :: e in InboundErrors(id, errors) ==> e.InboundError? && e.id == id
  {}

  /** Once all were driven, nothing is left to send on an idle one. */
  lemma PolledIsDrained(before: map<SubstreamId, InboundInfo>, history0: map<SubstreamId, InboundHistory>,
                        after: map<SubstreamId, InboundInfo>, history: map<SubstreamId, InboundHistory>,
                        send: (SubstreamId, nat) -> SendPoll, news: seq<Event>)
    requires InboundPolled(before, history0, after, history, false, send, before.Keys, news)
    ensures Drained(after, after.Keys)
  {
    hide InboundOk, InboundHistoryOk, ErrorsFor;
    forall id | id in after && after[id].state.Idle? ensures after[id].pendingItems == [] {
      assert Driven(id, before[id], history0[id], false, send, At(after, id), history[id], ErrorsFor(news, id));
    }
  }

  lemma DriveOkMeans(id: SubstreamId, info0: InboundInfo, h: InboundHistory, deactivated: bool, send: (SubstreamId, nat) -> SendPoll,
                     left: Option<InboundInfo>, errors: seq<RpcError>, taken: seq<Message>, polls: nat)
    requires DriveOk(id, info0, h, deactivated, send, left, errors, taken, polls)
    ensures InboundHistoryOk(taken, h.queued, h.budget) && h.taken <= taken
    ensures left.Some? ==> left.value.delayKey == info0.delayKey && InboundOk(left.value, taken, h.queued, h.budget)
  {
    hide InboundOk, InboundHistoryOk;
  }

  /** The middle of driving the inbound substreams: those in `ids` are done. */
  ghost predicate InboundSoFar(before: map<SubstreamId, InboundInfo>, history0: map<SubstreamId, InboundHistory>, events0: seq<Event>,
                               after: map<SubstreamId, InboundInfo>, history: map<SubstreamId, InboundHistory>, events: seq<Event>,
                               deactivated: bool, send: (SubstreamId, nat) -> SendPoll, ids: set<SubstreamId>) {
    && events0 <= events && Grows(history0, history)
    && InboundPolled(before, history0, after, history, deactivated, send, ids, events[|events0|..])
  }

  lemma InboundNotPolled(before: map<SubstreamId, InboundInfo>, history: map<SubstreamId, InboundHistory>, events: seq<Event>,
                         deactivated: bool, send: (SubstreamId, nat) -> SendPoll)
    requires before.Keys <= history.Keys
    ensures InboundSoFar(before, history, events, before, history, events, deactivated, send, {})
  {}

  /** A substream that is still to be driven is as it was. */
  lemma StillThere(before: map<SubstreamId, InboundInfo>, history0: map<SubstreamId, InboundHistory>, events0: seq<Event>,
                   mid: map<SubstreamId, InboundInfo>, history: map<SubstreamId, InboundHistory>, events: seq<Event>,
                   deactivated: bool, send: (SubstreamId, nat) -> SendPoll, ids: set<SubstreamId>, id: SubstreamId)
    requires InboundSoFar(before, history0, events0, mid, history, events, deactivated, send, ids) && id in before && id !in ids
    ensures id in mid && mid[id] == before[id] && id in history && id in history0 && history[id] == history0[id]
  {
    hide Driven, ErrorsFor, Grows;
  }

  lemma InboundSoFarNext(before: map<SubstreamId, InboundInfo>, history0: map<SubstreamId, InboundHistory>, events0: seq<Event>,
                         mid: map<SubstreamId, InboundInfo>, midHistory: map<SubstreamId, InboundHistory>, events: seq<Event>,
                         after: map<SubstreamId, InboundInfo>, history: map<SubstreamId, InboundHistory>, deactivated: bool,
                         send: (SubstreamId, nat) -> SendPoll, ids: set<SubstreamId>, id: SubstreamId, errors: seq<RpcError>, taken: seq<Message>, polls: nat)
    requires InboundSoFar(before, history0, events0, mid, midHistory, events, deactivated, send, ids) && id in before && id !in ids
    requires after - {id} == mid - {id} && id in history0 && id in midHistory && Grows(midHistory, history)
    requires DriveOk(id, before[id], history0[id], deactivated, send, At(after, id), errors, taken, polls)
    requires history == midHistory[id := midHistory[id].(taken := taken)]
    ensures InboundSoFar(before, history0, events0, after, history, events + InboundErrors(id, errors), deactivated, send, ids + {id})
  {
    hide InboundPolled, DriveOk, Grows, InboundErrors;
    InboundPolledNext(before, history0, mid, midHistory, after, deactivated, send, ids, events[|events0|..], id, errors, taken, polls);
    GrowsOn(history0, midHistory, history);
    assert (events + InboundErrors(id, errors))[|events0|..] == events[|events0|..] + InboundErrors(id, errors);
  }

  lemma InboundAllPolled(before: map<SubstreamId, InboundInfo>, history0: map<SubstreamId, InboundHistory>, events0: seq<Event>,
                         after: map<SubstreamId, InboundInfo>, history: map<SubstreamId, InboundHistory>, events: seq<Event>,
                         deactivated: bool, send: (SubstreamId, nat) -> SendPoll)
    requires InboundSoFar(before, history0, events0, after, history, events, deactivated, send, before.Keys)
    ensures events0 <= events && Grows(history0, history)
    ensures InboundPolled(before, history0, after, history, deactivated, send, before.Keys, events[|events0|..])
    ensures !deactivated ==> Drained(after, after.Keys)
  {
    hide InboundPolled, Grows;
    if !deactivated {
      PolledIsDrained(before, history0, after, history, send, events[|events0|..]);
    }
  }

  // Outbound substreams.

  /** A poll of a substream that makes the whole poll go on: there is nothing to report, or it waits in the queue. */
  predicate Silent(id: SubstreamId, info: OutboundInfo, deactivated: bool, read: ReadPoll, closed: bool) {
    Waits(info, deactivated) || Reported(id, info, deactivated, read, closed).None?
  }

  function WaitingIds(before: map<SubstreamId, OutboundInfo>, deactivated: bool, ids: set<SubstreamId>): set<SubstreamId> {
    set id | id in ids && id in before && Waits(before[id], deactivated)
  }

  /** Each substream closed by the deactivation is reported, by one event each. */
  ghost predicate WaitsQueued(before: map<SubstreamId, OutboundInfo>, deactivated: bool, ids: set<SubstreamId>, news: seq<Event>) {
    && |news| == |WaitingIds(before, deactivated, ids)|
    && forall id :: id in WaitingIds(before, deactivated, ids) ==> OutboundError(Some(id), before[id].reqId, Disconnected) in news
  }

  /** The substreams `ids` were polled in silence, each leaving what one poll leaves, and the others are as before. */
  ghost predicate OutboundPolled(before: map<SubstreamId, OutboundInfo>, after: map<SubstreamId, OutboundInfo>, deactivated: bool,
                                 read: SubstreamId -> ReadPoll, closed: SubstreamId -> bool, ids: set<SubstreamId>, news: seq<Event>) {
    && after.Keys <= before.Keys && ids <= before.Keys
    && (forall id :: id in before ==> At(after, id) == if id in ids then Left(before[id], deactivated, read(id), closed(id)) else Some(before[id]))
    && WaitsQueued(before, deactivated, ids, news)
  }

  ghost predicate AllSilent(before: map<SubstreamId, OutboundInfo>, deactivated: bool, read: SubstreamId -> ReadPoll,
                            closed: SubstreamId -> bool, ids: set<SubstreamId>) {
    forall id :: id in ids && id in before ==> Silent(id, before[id], deactivated, read(id), closed(id))
  }

  /** The event comes from `id`, which was polled last. */
  ghost predicate ReportedBy(id: SubstreamId, before: map<SubstreamId, OutboundInfo>, deactivated: bool, read: SubstreamId -> ReadPoll,
                             closed: SubstreamId -> bool, ids: set<SubstreamId>, e: Event) {
    && id in ids && id in before && !Waits(before[id], deactivated)
    && Reported(id, before[id], deactivated, read(id), closed(id)) == Some(e)
    && AllSilent(before, deactivated, read, closed, ids - {id})
  }

  /** All were polled in silence, or the first one that had something to report at once ended the poll. */
  ghost predicate OutboundSpec(before: map<SubstreamId, OutboundInfo>, after: map<SubstreamId, OutboundInfo>, deactivated: bool,
                               read: SubstreamId -> ReadPoll, closed: SubstreamId -> bool, ids: set<SubstreamId>, news: seq<Event>, r: Option<Event>) {
    && OutboundPolled(before, after, deactivated, read, closed, ids, news)
    && match r
       case Some(e) => exists id :: ReportedBy(id, before, deactivated, read, closed, ids, e)
       case None => ids == before.Keys && AllSilent(before, deactivated, read, closed, ids)
  }

  /** None of these substreams has an event in the queue. */
  ghost predicate QuietFor(events: seq<Event>, ids: set<SubstreamId>) {
    forall s :: s in ids ==> Project(events, s) == []
  }

  lemma QuietForAll(events: seq<Event>, ids: set<SubstreamId>)
    requires AllQuiet(events)
    ensures QuietFor(events, ids)
  {
    hide Project, AllQuiet;
    forall s | s in ids ensures Project(events, s) == [] {
      QuietProject(events, s);
    }
  }

  lemma QuietForOne(events: seq<Event>, ids: set<SubstreamId>, id: SubstreamId)
    requires QuietFor(events, ids) && id in ids
    ensures Project(events, id) == []
  {
    hide Project;
  }

  lemma QuietForRest(events: seq<Event>, events': seq<Event>, ids: set<SubstreamId>, id: SubstreamId)
    requires QuietFor(events, ids) && forall s :: s != id ==> Project(events', s) == Project(events, s)
    ensures QuietFor(events', ids - {id})
  {
    hide Project;
  }

  /** The middle of polling the outbound substreams: those in `ids` were polled in silence. */
  ghost predicate OutboundSoFar(before: map<SubstreamId, OutboundInfo>, logs0: map<SubstreamId, OutboundHistory>, events0: seq<Event>,
                                after: map<SubstreamId, OutboundInfo>, logs: map<SubstreamId, OutboundHistory>, events: seq<Event>,
                                deactivated: bool, read: SubstreamId -> ReadPoll, closed: SubstreamId -> bool, ids: set<SubstreamId>) {
    && events0 <= events && LogsGrow(logs0, logs)
    && OutboundPolled(before, after, deactivated, read, closed, ids, events[|events0|..]) && AllSilent(before, deactivated, read, closed, ids)
  }

  /** The same after the poll of `id`, which may have something to report. */
  ghost predicate OutboundReached(before: map<SubstreamId, OutboundInfo>, logs0: map<SubstreamId, OutboundHistory>, events0: seq<Event>,
                                  after: map<SubstreamId, OutboundInfo>, logs: map<SubstreamId, OutboundHistory>, events: seq<Event>,
                                  deactivated: bool, read: SubstreamId -> ReadPoll, closed: SubstreamId -> bool, ids: set<SubstreamId>, id: SubstreamId,
                                  r: Option<Event>) {
    && events0 <= events && LogsGrow(logs0, logs) && id in before && id !in ids
    && OutboundPolled(before, after, deactivated, read, closed, ids + {id}, events[|events0|..]) && AllSilent(before, deactivated, read, closed, ids)
    && (if Waits(before[id], deactivated) then r.None? else r == Reported(id, before[id], deactivated, read(id), closed(id)))
  }

  lemma OutboundNotPolled(before: map<SubstreamId, OutboundInfo>, logs: map<SubstreamId, OutboundHistory>, events: seq<Event>,
                          deactivated: bool, read: SubstreamId -> ReadPoll, closed: SubstreamId -> bool)
    ensures OutboundSoFar(before, logs, events, before, logs, events, deactivated, read, closed, {})
  {
    assert WaitingIds(before, deactivated, {}) == {};
  }

  lemma WaitsQueuedNext(before: map<SubstreamId, OutboundInfo>, deactivated: bool, ids: set<SubstreamId>, news: seq<Event>, id: SubstreamId)
    requires WaitsQueued(before, deactivated, ids, news) && id in before && id !in ids
    ensures WaitsQueued(before, deactivated, ids + {id},
                        news + if Waits(before[id], deactivated) then [OutboundError(Some(id), before[id].reqId, Disconnected)] else [])
  {
    var w, w' := WaitingIds(before, deactivated, ids), WaitingIds(before, deactivated, ids + {id});
    if Waits(before[id], deactivated) {
      assert w' == w + {id};
    } else {
      assert w' == w;
    }
  }

  lemma OutboundPolledNext(before: map<SubstreamId, OutboundInfo>, mid: map<SubstreamId, OutboundInfo>, after: map<SubstreamId, OutboundInfo>,
                           deactivated: bool, read: SubstreamId -> ReadPoll, closed: SubstreamId -> bool, ids: set<SubstreamId>, news: seq<Event>, id: SubstreamId)
    requires OutboundPolled(before, mid, deactivated, read, closed, ids, news) && id in before && id !in ids
    requires var left := Left(before[id], deactivated, read(id), closed(id)); after == if left.Some? then mid[id := left.value] else mid - {id}
    ensures OutboundPolled(before, after, deactivated, read, closed, ids + {id},
                           news + if Waits(before[id], deactivated) then [OutboundError(Some(id), before[id].reqId, Disconnected)] else [])
  {
    hide Left, WaitsQueued, Waits;
    WaitsQueuedNext(before, deactivated, ids, news, id);
  }

  lemma NotPolledYet(before: map<SubstreamId, OutboundInfo>, logs0: map<SubstreamId, OutboundHistory>, events0: seq<Event>,
                     mid: map<SubstreamId, OutboundInfo>, logs: map<SubstreamId, OutboundHistory>, events: seq<Event>,
                     deactivated: bool, read: SubstreamId -> ReadPoll, closed: SubstreamId -> bool, ids: set<SubstreamId>, id: SubstreamId)
    requires OutboundSoFar(before, logs0, events0, mid, logs, events, deactivated, read, closed, ids) && id in before && id !in ids
    ensures id in mid && mid[id] == before[id]
  {
    hide Left, WaitsQueued, LogsGrow, AllSilent;
  }

  lemma WaitsReportsDisconnected(id: SubstreamId, info: OutboundInfo, deactivated: bool, read: ReadPoll, closed: bool)
    ensures Waits(info, deactivated) ==> Reported(id, info, deactivated, read, closed) == Some(OutboundError(Some(id), info.reqId, Disconnected))
  {}

  lemma OutboundReachedNext(before: map<SubstreamId, OutboundInfo>, logs0: map<SubstreamId, OutboundHistory>, events0: seq<Event>,
                            mid: map<SubstreamId, OutboundInfo>, midLogs: map<SubstreamId, OutboundHistory>, midEvents: seq<Event>,
                            after: map<SubstreamId, OutboundInfo>, logs: map<SubstreamId, OutboundHistory>, events: seq<Event>,
                            deactivated: bool, read: SubstreamId -> ReadPoll, closed: SubstreamId -> bool, ids: set<SubstreamId>, id: SubstreamId,
                            r: Option<Event>)
    requires OutboundSoFar(before, logs0, events0, mid, midLogs, midEvents, deactivated, read, closed, ids) && id in before && id !in ids
    requires LogsGrow(midLogs, logs)
    requires var left := Left(before[id], deactivated, read(id), closed(id)); after == if left.Some? then mid[id := left.value] else mid - {id}
    requires var e := Reported(id, before[id], deactivated, read(id), closed(id));
             if Waits(before[id], deactivated) then r.None? && e.Some? && events == midEvents + [e.value] else r == e && events == midEvents
    ensures OutboundReached(before, logs0, events0, after, logs, events, deactivated, read, closed, ids, id, r)
  {
    hide Left, LogsGrow, AllSilent, Waits, OutboundPolled, Reported;
    var news := midEvents[|events0|..];
    WaitsReportsDisconnected(id, before[id], deactivated, read(id), closed(id));
    OutboundPolledNext(before, mid, after, deactivated, read, closed, ids, news, id);
    LogsGrowOn(logs0, midLogs, logs);
    assert events[|events0|..] == news + if Waits(before[id], deactivated) then [OutboundError(Some(id), before[id].reqId, Disconnected)] else [];
  }

  /** The poll goes on in silence, or ends here. */
  lemma ReachedMeans(before: map<SubstreamId, OutboundInfo>, logs0: map<SubstreamId, OutboundHistory>, events0: seq<Event>,
                     after: map<SubstreamId, OutboundInfo>, logs: map<SubstreamId, OutboundHistory>, events: seq<Event>,
                     deactivated: bool, read: SubstreamId -> ReadPoll, closed: SubstreamId -> bool, ids: set<SubstreamId>, id: SubstreamId, r: Option<Event>)
    requires OutboundReached(before, logs0, events0, after, logs, events, deactivated, read, closed, ids, id, r)
    ensures events0 <= events && LogsGrow(logs0, logs)
    ensures r.None? ==> OutboundSoFar(before, logs0, events0, after, logs, events, deactivated, read, closed, ids + {id})
    ensures r.Some? ==> OutboundSpec(before, after, deactivated, read, closed, ids + {id}, events[|events0|..], r)
  {
    hide LogsGrow, OutboundPolled, Waits, Reported;
    assert ids + {id} - {id} == ids;
    if r.Some? {
      assert ReportedBy(id, before, deactivated, read, closed, ids + {id}, r.value);
    }
  }

  lemma AllReached(before: map<SubstreamId, OutboundInfo>, logs0: map<SubstreamId, OutboundHistory>, events0: seq<Event>,
                   after: map<SubstreamId, OutboundInfo>, logs: map<SubstreamId, OutboundHistory>, events: seq<Event>,
                   deactivated: bool, read: SubstreamId -> ReadPoll, closed: SubstreamId -> bool)
    requires OutboundSoFar(before, logs0, events0, after, logs, events, deactivated, read, closed, before.Keys)
    ensures events0 <= events && LogsGrow(logs0, logs)
    ensures OutboundSpec(before, after, deactivated, read, closed, before.Keys, events[|events0|..], None)
  {
    hide LogsGrow, OutboundPolled, AllSilent;
  }

  /** Silence, while not deactivated, means that every waiting substream had nothing to read. */
  lemma SilentIsListened(before: map<SubstreamId, OutboundInfo>, after: map<SubstreamId, OutboundInfo>, read: SubstreamId -> ReadPoll,
                         closed: SubstreamId -> bool, ids: set<SubstreamId>, news: seq<Event>)
    requires OutboundSpec(before, after, false, read, closed, ids, news, None)
    ensures Listened(before, before.Keys, read)
  {
    hide OutboundPolled;
    forall id | id in before && before[id].state.RequestPendingResponse? ensures read(id).ReadPending? {
      assert Silent(id, before[id], false, read(id), closed(id));
    }
  }

  // The whole poll.

  /** The new events from position `n` on come from outbound substreams, those before from inbound ones. */
  ghost predicate SubstreamsWith(env: Env, v0: View, v: View, r: Option<Event>, n: nat, ids: set<SubstreamId>) {
    && |v0.events| <= n <= |v.events| && v0.events <= v.events
    && InboundPolled(v0.inbound, v0.inboundHistory, v.inbound, v.inboundHistory, v0.state.Deactivated?, env.send, v0.inbound.Keys, v.events[|v0.events|..n])
    && OutboundSpec(v0.outbound, v.outbound, v0.state.Deactivated?, env.read, env.closed, ids, v.events[n..], r)
    && SameDials(v0, v)
  }

  ghost predicate SubstreamsSpec(env: Env, v0: View, v: View, r: Option<Event>) {
    exists n, ids :: SubstreamsWith(env, v0, v, r, n, ids)
  }

  /** Timers first; substreams only if no outbound timer ran out. */
  ghost predicate ReportsSpec(env: Env, v0: View, v: View, r: Option<Event>) {
    exists mid, first :: TimersSpec(env, v0, mid, first) &&
      if first.Some? then v == mid && r == first else SubstreamsSpec(env, mid, v, r)
  }

  /** Without a timeout to return, the outbound substreams and the state are untouched. */
  lemma TimersLeave(env: Env, v0: View, v: View, r: Option<Event>)
    requires TimersSpec(env, v0, v, r)
    ensures r.None? ==> v.outbound == v0.outbound && v.outboundDelay == v0.outboundDelay && env.outboundExpired * v0.outboundDelay.Keys == {}
  {
    hide TimedOutBy, TimeoutsReported;
  }

  ghost predicate Finished(v: View) {
    v.state.ShuttingDown? && v.dialQueue == [] && v.outbound.Keys == {} && v.inbound.Keys == {} && v.events == [] && v.dialNegotiated == 0
  }

  /** The end of a poll: a dial, the end of a shutdown, or nothing. */
  ghost predicate IdleSpec(v0: View, v: View, r: PollResult) {
    if v0.dialQueue != [] && v0.dialNegotiated < MAX_DIAL_NEGOTIATED then
      r == OpenSubstream(v0.dialQueue[0]) && v == v0.(dialQueue := v0.dialQueue[1..], dialNegotiated := v0.dialNegotiated + 1)
    else if Finished(v0) then r == Notify(Close) && v == v0.(state := Deactivated)
    else r == Pending && v == v0
  }

  /** One poll: the oldest queued event, or the end of a shutdown that took too long, or timers, substreams and dials. */
  ghost predicate PollSpec(env: Env, v0: View, v: View, r: PollResult) {
    if v0.events != [] then r == Notify(v0.events[0]) && v == v0.(events := v0.events[1..])
    else if v0.state.ShuttingDown? && env.shutdownElapsed then r == Notify(Close) && v == v0.(state := Deactivated)
    else exists mid, reported :: ReportsSpec(env, v0, mid, reported) &&
           if reported.Some? then r == Notify(reported.value) && v == mid else IdleSpec(mid, v, r)
  }

  // ----- What that means for the application -----

  /** Why a poll hands out an event: it was queued, the handler is closed, a timer ran out, or a substream reported it just now. */
  ghost predicate Sourced(env: Env, v0: View, e: Event) {
    || (v0.events != [] && e == v0.events[0])
    || (e == Close && v0.state.ShuttingDown?)
    || (exists k :: TimesOutNow(env, v0, k, e))
    || (exists id :: ReportsNow(env, v0, id, e))
  }

  ghost predicate TimesOutNow(env: Env, v0: View, k: DelayKey, e: Event) {
    k in env.outboundExpired && k in v0.outboundDelay && v0.outboundDelay[k] in v0.outbound &&
    e == OutboundError(Some(v0.outboundDelay[k]), v0.outbound[v0.outboundDelay[k]].reqId, StreamTimeout)
  }

  ghost predicate ReportsNow(env: Env, v0: View, id: SubstreamId, e: Event) {
    id in v0.outbound && Reported(id, v0.outbound[id], v0.state.Deactivated?, env.read(id), env.closed(id)) == Some(e)
  }

  lemma ReportIsSourced(env: Env, v0: View, v: View, e: Event)
    requires ReportsSpec(env, v0, v, Some(e))
    ensures Sourced(env, v0, e)
  {
    hide InboundPolled, OutboundPolled, AllSilent, Waits, Reported, TimedOutBy, TimeoutsReported;
    var mid, first :| TimersSpec(env, v0, mid, first) && if first.Some? then v == mid && Some(e) == first else SubstreamsSpec(env, mid, v, Some(e));
    if first.Some? {
      var k :| ExpiredAt(k, env.outboundExpired, v0.outbound, v0.outboundDelay, mid.outbound, mid.outboundDelay, e);
      assert TimesOutNow(env, v0, k, e);
    } else {
      var n: nat, ids :| SubstreamsWith(env, mid, v, Some(e), n, ids);
      var id :| ReportedBy(id, mid.outbound, mid.state.Deactivated?, env.read, env.closed, ids, e);
      assert ReportsNow(env, v0, id, e);
    }
  }

  /** Every event that a poll hands out has such a reason. */
  lemma EveryEventIsSourced(env: Env, v0: View, v: View, e: Event)
    requires PollSpec(env, v0, v, Notify(e))
    ensures Sourced(env, v0, e)
  {
    hide ReportsSpec, TimesOutNow, ReportsNow;
    if v0.events == [] && !(v0.state.ShuttingDown? && env.shutdownElapsed) {
      var mid, reported :| ReportsSpec(env, v0, mid, reported) && if reported.Some? then Notify(e) == Notify(reported.value) && v == mid else IdleSpec(mid, v, Notify(e));
      if reported.Some? {
        ReportIsSourced(env, v0, mid, e);
      } else {
        StateStays(env, v0, mid, None);
      }
    }
  }

  lemma StateStays(env: Env, v0: View, v: View, r: Option<Event>)
    requires ReportsSpec(env, v0, v, r)
    ensures SameDials(v0, v)
  {
    hide InboundPolled, OutboundSpec, TimedOutBy, TimeoutsReported, OutboundTimers;
  }

  /** Why an outbound substream leaves: it timed out, or one poll left nothing of it; the poll hands out what there was to report. */
  ghost predicate LeftFor(env: Env, v0: View, r: PollResult, id: SubstreamId)
    requires id in v0.outbound
  {
    || (exists k :: k in v0.outboundDelay && v0.outboundDelay[k] == id && r.Notify? && TimesOutNow(env, v0, k, r.event))
    || (&& Left(v0.outbound[id], v0.state.Deactivated?, env.read(id), env.closed(id)).None?
        && var e := Reported(id, v0.outbound[id], v0.state.Deactivated?, env.read(id), env.closed(id));
           e.Some? ==> r == Notify(e.value))
  }

  lemma ReportLeaves(env: Env, v0: View, v: View, r: Option<Event>, id: SubstreamId)
    requires ReportsSpec(env, v0, v, r) && id in v0.outbound && id !in v.outbound
    ensures LeftFor(env, v0, if r.Some? then Notify(r.value) else Pending, id)
  {
    hide InboundPolled, TimedOutBy, TimeoutsReported, WaitsQueued;
    var mid, first :| TimersSpec(env, v0, mid, first) && if first.Some? then v == mid && r == first else SubstreamsSpec(env, mid, v, r);
    if first.Some? {
      var k :| ExpiredAt(k, env.outboundExpired, v0.outbound, v0.outboundDelay, mid.outbound, mid.outboundDelay, first.value);
      assert TimesOutNow(env, v0, k, first.value);
    } else {
      var n: nat, ids :| SubstreamsWith(env, mid, v, r, n, ids);
      PolledLeaves(mid.outbound, v.outbound, mid.state.Deactivated?, env.read, env.closed, ids, v.events[n..], r, id);
    }
  }

  lemma PolledLeaves(before: map<SubstreamId, OutboundInfo>, after: map<SubstreamId, OutboundInfo>, deactivated: bool,
                     read: SubstreamId -> ReadPoll, closed: SubstreamId -> bool, ids: set<SubstreamId>, news: seq<Event>, r: Option<Event>, id: SubstreamId)
    requires OutboundSpec(before, after, deactivated, read, closed, ids, news, r) && id in before && id !in after
    ensures Left(before[id], deactivated, read(id), closed(id)).None?
    ensures Reported(id, before[id], deactivated, read(id), closed(id)).Some? ==> r == Reported(id, before[id], deactivated, read(id), closed(id))
  {
    assert At(after, id) == None;
    if r.Some? {
      var j :| ReportedBy(j, before, deactivated, read, closed, ids, r.value);
      assert j != id ==> Silent(id, before[id], deactivated, read(id), closed(id));
    } else {
      assert Silent(id, before[id], deactivated, read(id), closed(id));
    }
  }

  /** No outbound substream is forgotten: one that leaves timed out or was done, and this poll says so if there is something to say. */
  lemma OutboundLeavesForAReason(env: Env, v0: View, v: View, r: PollResult, id: SubstreamId)
    requires PollSpec(env, v0, v, r) && id in v0.outbound && id !in v.outbound
    ensures LeftFor(env, v0, r, id)
  {
    hide ReportsSpec, Left, Reported;
    assert v0.events == [] && !(v0.state.ShuttingDown? && env.shutdownElapsed);
    var mid, reported :| ReportsSpec(env, v0, mid, reported) && if reported.Some? then r == Notify(reported.value) && v == mid else IdleSpec(mid, v, r);
    ReportLeaves(env, v0, mid, reported, id);
  }

  /** Why an inbound substream leaves: its last message was sent, an error of it is queued, or the handler closes. */
  ghost predicate InboundDone(v: View, deactivated: bool, id: SubstreamId) {
    || deactivated
    || (exists e :: InboundError(id, e) in v.events)
    || (id in v.inboundHistory && var h := v.inboundHistory[id]; h.taken != [] && (h.taken[|h.taken| - 1].CloseAfter() || |h.taken| == h.budget))
  }

  lemma {:induction false} ErrorIsQueued(es: seq<Event>, id: SubstreamId)
    requires ErrorsFor(es, id) != []
    ensures exists e :: InboundError(id, e) in es
  {
    var init, last := es[..|es| - 1], es[|es| - 1];
    if last.InboundError? && last.id == id {
      assert InboundError(id, last.error) in es;
    } else {
      ErrorIsQueued(init, id);
      var e :| InboundError(id, e) in init;
      assert InboundError(id, e) in es;
    }
  }

  lemma DrivenLeaves(env: Env, v0: View, v: View, r: Option<Event>, id: SubstreamId)
    requires SubstreamsSpec(env, v0, v, r) && id in v0.inbound && id !in v.inbound
    ensures InboundDone(v, v0.state.Deactivated?, id)
  {
    hide Driven, OutboundSpec, ErrorsFor;
    var n: nat, ids :| SubstreamsWith(env, v0, v, r, n, ids);
    var news := v.events[|v0.events|..n];
    assert Driven(id, v0.inbound[id], v0.inboundHistory[id], v0.state.Deactivated?, env.send, At(v.inbound, id), v.inboundHistory[id], ErrorsFor(news, id));
    GoneForAReason(id, v0.inbound[id], v0.inboundHistory[id], v0.state.Deactivated?, env.send, v.inboundHistory[id], ErrorsFor(news, id));
    if ErrorsFor(news, id) != [] {
      ErrorIsQueued(news, id);
      var e :| InboundError(id, e) in news;
      assert InboundError(id, e) in v.events;
    }
  }

  lemma GoneForAReason(id: SubstreamId, info0: InboundInfo, h0: InboundHistory, deactivated: bool, send: (SubstreamId, nat) -> SendPoll,
                       h: InboundHistory, errors: seq<RpcError>)
    requires Driven(id, info0, h0, deactivated, send, None, h, errors)
    ensures deactivated || errors != [] || (h.taken != [] && (h.taken[|h.taken| - 1].CloseAfter() || |h.taken| == h.budget))
  {
    hide InboundOk, InboundHistoryOk;
  }

  /** No inbound substream is forgotten. */
  lemma InboundLeavesForAReason(env: Env, v0: View, v: View, r: PollResult, id: SubstreamId)
    requires PollSpec(env, v0, v, r) && id in v0.inbound && id !in v.inbound
    ensures InboundDone(v, v0.state.Deactivated?, id)
  {
    hide ReportsSpec;
    assert v0.events == [] && !(v0.state.ShuttingDown? && env.shutdownElapsed);
    var mid, reported :| ReportsSpec(env, v0, mid, reported) && if reported.Some? then r == Notify(reported.value) && v == mid else IdleSpec(mid, v, r);
    InboundReportLeaves(env, v0, mid, reported, id);
  }

  lemma InboundReportLeaves(env: Env, v0: View, v: View, r: Option<Event>, id: SubstreamId)
    requires ReportsSpec(env, v0, v, r) && id in v0.inbound && id !in v.inbound
    ensures InboundDone(v, v0.state.Deactivated?, id)
  {
    hide TimersSpec, SubstreamsSpec, InboundDone;
    StateStays(env, v0, v, r);
    var mid, first :| TimersSpec(env, v0, mid, first) && if first.Some? then v == mid && r == first else SubstreamsSpec(env, mid, v, r);
    TimersKeepInbound(env, v0, mid, first);
    DrivenLeaves(env, mid, v, r, id);
  }

  lemma TimersKeepInbound(env: Env, v0: View, v: View, r: Option<Event>)
    requires TimersSpec(env, v0, v, r)
    ensures v.inbound.Keys == v0.inbound.Keys && v.state == v0.state
  {
    hide TimeoutsReported, OutboundTimers, TimedOut, TimedOutHistory;
  }

  /** This event is the timeout of the substream, whose timer has run out. */
  ghost predicate TimesOutFor(env: Env, v0: View, id: SubstreamId, e: Event) {
    exists k :: k in v0.outboundDelay && v0.outboundDelay[k] == id && TimesOutNow(env, v0, k, e)
  }

  /**
    A poll hands out the third error of a late substream if and only if the substream is closing, nothing is queued, and
    the event is its timeout. `returned` is what was handed out before.
  */
  lemma ThirdErrorIff(env: Env, v0: View, v: View, e: Event, id: SubstreamId, asked: Request, returned: seq<Event>)
    requires PollSpec(env, v0, v, Notify(e)) && id in v0.outbound && v0.state.Deactivated?
    requires OutboundOk(v0.outbound[id], asked, true, Project(returned + v0.events, id))
    ensures Project(returned + [e], id) == [E, E, E] <==> v0.outbound[id].state.Closing? && v0.events == [] && TimesOutFor(env, v0, id, e)
  {
    hide PollSpec, Project, OutboundOk, TimesOutNow, ReportsNow;
    LateErrors(v0.outbound[id], asked, Project(returned + v0.events, id));
    ProjectSnoc(returned, e, id);
    EveryEventIsSourced(env, v0, v, e);
    if v0.events != [] {
      HeadIsReported(env, v0, v, e);
      assert returned + v0.events == returned + [e] + v0.events[1..];
      ProjectConcat(returned + [e], v0.events[1..], id);
    } else {
      assert returned + v0.events == returned;
      ErrorIsTimeout(env, v0, id, e);
      assert [E, E] + [E] == [E, E, E];
      var log, k := Project(returned, id), KindOf(e, id);
      if log + k == [E, E, E] {
        assert |log| == 2 && k == [(log + k)[2]];
      }
    }
  }

  lemma HeadIsReported(env: Env, v0: View, v: View, e: Event)
    requires PollSpec(env, v0, v, Notify(e)) && v0.events != []
    ensures e == v0.events[0]
  {
    hide ReportsSpec, IdleSpec;
  }

  /** A closing substream reports an error now only by its timeout. */
  lemma ErrorIsTimeout(env: Env, v0: View, id: SubstreamId, e: Event)
    requires Sourced(env, v0, e) && v0.events == [] && id in v0.outbound
    ensures TimesOutFor(env, v0, id, e) ==> KindOf(e, id) == [E]
    ensures v0.outbound[id].state.Closing? && KindOf(e, id) == [E] ==> TimesOutFor(env, v0, id, e)
  {}
}
