/** The per-connection RPC handler. */
module RpcHandler {
  import opened Common
  import opened HandlerModel
  import opened HandlerParts
  import opened HandlerPoll

  // ----- The handler object -----

  class RPCHandler {
    var eventsOut: seq<Event>
    var dialQueue: seq<Dial>
    var dialNegotiated: nat
    var inbound: map<SubstreamId, InboundInfo>
    var inboundDelay: DelayQueue
    var outbound: map<SubstreamId, OutboundInfo>
    var outboundDelay: DelayQueue
    var nextDelayKey: DelayKey
    var currentInboundId: SubstreamId
    var currentOutboundId: SubstreamId
    var state: HandlerState
    var outboundIoErrorRetries: nat

    // History: events handed out, messages per inbound and events per outbound substream, and what became of requests.
    ghost var returned: seq<Event>
    ghost var inboundHistory: map<SubstreamId, InboundHistory>
    ghost var outboundHistory: map<SubstreamId, OutboundHistory>
    ghost var dialling: multiset<Dial>
    ghost var accepted: multiset<Dial>
    ghost var settled: multiset<Dial>

    ghost function Inbound(): InboundPart
      reads this
    {
      InboundPart(inbound, inboundDelay, inboundHistory, currentInboundId, nextDelayKey)
    }

    ghost function Outbound(): OutboundPart
      reads this
    {
      OutboundPart(outbound, outboundDelay, outboundHistory, currentOutboundId, nextDelayKey, state)
    }

    ghost function Reports(): ReportPart
      reads this
    {
      ReportPart(outboundHistory, state, returned, eventsOut)
    }

    ghost function Dials(): DialPart
      reads this
    {
      DialPart(dialQueue, dialNegotiated, dialling, accepted, settled)
    }

    ghost function Snapshot(): View
      reads this
    {
      View(eventsOut, inbound, inboundDelay, inboundHistory, outbound, outboundDelay, dialQueue, dialNegotiated, state)
    }

    ghost predicate Valid()
      reads this
    {
      Inbound().Valid() && Outbound().Valid() && Reports().Valid() && Dials().Valid()
    }

    constructor ()
      ensures Valid() && state.Active? && returned == [] && accepted == multiset{}
      ensures eventsOut == [] && dialQueue == [] && dialNegotiated == 0 && inbound == map[] && outbound == map[] && outboundDelay == map[]
      ensures currentInboundId == 0 && currentOutboundId == 0 && nextDelayKey == 0 && outboundIoErrorRetries == 0
      ensures inboundDelay == map[] && inboundHistory == map[] && dialling == multiset{}
    {
      eventsOut, dialQueue, dialNegotiated := [], [], 0;
      inbound, inboundDelay, outbound, outboundDelay, nextDelayKey := map[], map[], map[], map[], 0;
      currentInboundId, currentOutboundId, state, outboundIoErrorRetries := 0, 0, Active, 0;
      returned, inboundHistory, outboundHistory := [], map[], map[];
      dialling, accepted, settled := multiset{}, multiset{}, multiset{};
    }

    /** Queues an event that no outbound substream reports. */
    method Push(e: Event)
      requires Reports().Valid() && Quiet(e)
      modifies this`eventsOut
      ensures Reports().Valid() && eventsOut == old(eventsOut) + [e]
    {
      hide ReportPart.Valid, Quiet;
      Reports().PushValid(e);
      eventsOut := eventsOut + [e];
    }

    /** Gives up the newest queued request. */
    method DropDial() returns (d: Dial)
      requires Dials().Valid() && dialQueue != []
      modifies this`dialQueue, this`settled
      ensures Dials().Valid() && d == old(dialQueue)[|old(dialQueue)| - 1] && dialQueue == old(dialQueue)[..|old(dialQueue)| - 1]
    {
      hide DialPart.Valid;
      Dials().FailValid();
      d := dialQueue[|dialQueue| - 1];
      dialQueue := dialQueue[..|dialQueue| - 1];
      settled := settled + multiset{d};
    }

    /** Drops the requests not yet sent, newest first. */
    method FailQueued()
      requires Reports().Valid() && Dials().Valid()
      modifies this`eventsOut, this`dialQueue, this`settled
      ensures Reports().Valid() && Dials().Valid()
      ensures dialQueue == [] && eventsOut == old(eventsOut) + Failures(old(dialQueue))
    {
      hide ReportPart.Valid, DialPart.Valid;
      while dialQueue != []
        invariant Reports().Valid() && Dials().Valid()
        invariant eventsOut + Failures(dialQueue) == old(eventsOut) + Failures(old(dialQueue))
        decreases |dialQueue|
      {
        var d := DropDial();
        Push(OutboundError(None, d.id, Disconnected));
      }
    }

    method QueueDial(d: Dial)
      requires Dials().Valid() && Sensible(d.req)
      modifies this`dialQueue, this`accepted
      ensures Dials() == old(Dials()).Accept(d) && Dials().Valid()
    {
      hide DialPart.Valid;
      Dials().AcceptValid(d);
      dialQueue := dialQueue + [d];
      accepted := accepted + multiset{d};
    }

    method RefuseDial(d: Dial)
      requires Dials().Valid() && Sensible(d.req)
      modifies this`accepted, this`settled
      ensures Dials() == old(Dials()).Refuse(d) && Dials().Valid()
    {
      hide DialPart.Valid;
      Dials().AcceptValid(d);
      accepted, settled := accepted + multiset{d}, settled + multiset{d};
    }

    /** Starts the shutdown: requests not yet sent fail, the optional goodbye is queued. Only an active handler does anything. */
    method Shutdown(goodbye: Option<ReqId>)
      requires Valid()
      modifies this`eventsOut, this`dialQueue, this`state, this`accepted, this`settled
      ensures Valid() && Forward(old(state), state)
      ensures !old(state).Active? ==> unchanged(this)
      ensures old(state).Active? ==>
                && state.ShuttingDown?
                && dialQueue == (if goodbye.Some? then [Dial(goodbye.value, Request(Goodbye, 0))] else [])
                && eventsOut == old(eventsOut) + Failures(old(dialQueue))
    {
      hide InboundPart.Valid, OutboundPart.Valid, ReportPart.Valid, DialPart.Valid, Failures;
      if !state.Active? {
        return;
      }
      EmptyQueue(goodbye);
      StartShutdown();
    }

    /** The queued requests fail, and at most the goodbye takes their place. */
    method EmptyQueue(goodbye: Option<ReqId>)
      requires Reports().Valid() && Dials().Valid()
      modifies this`eventsOut, this`dialQueue, this`accepted, this`settled
      ensures Reports().Valid() && Dials().Valid()
      ensures dialQueue == (if goodbye.Some? then [Dial(goodbye.value, Request(Goodbye, 0))] else [])
      ensures eventsOut == old(eventsOut) + Failures(old(dialQueue))
    {
      hide ReportPart.Valid, DialPart.Valid, Failures;
      FailQueued();
      if goodbye.Some? {
        QueueDial(Dial(goodbye.value, Request(Goodbye, 0)));
      }
    }

    method StartShutdown()
      requires Outbound().Valid() && Reports().Valid() && state.Active?
      modifies this`state
      ensures Outbound().Valid() && Reports().Valid() && state.ShuttingDown?
    {
      hide OutboundPart.Valid, ReportPart.Valid;
      Outbound().LaterValid(ShuttingDown, nextDelayKey);
      Reports().ShuttingDownValid();
      state := ShuttingDown;
    }

    /** Queues a request for dialling, or fails it when the handler is no longer active. */
    method SendRequest(id: ReqId, req: Request)
      requires Valid() && Sensible(req)
      modifies this`eventsOut, this`dialQueue, this`accepted, this`settled
      ensures Valid()
      ensures if state.Active? then Dials() == old(Dials()).Accept(Dial(id, req)) && eventsOut == old(eventsOut)
              else Dials() == old(Dials()).Refuse(Dial(id, req)) && eventsOut == old(eventsOut) + [OutboundError(None, id, Disconnected)]
    {
      hide InboundPart.Valid, OutboundPart.Valid, ReportPart.Valid, DialPart.Valid, DialPart.Accept, DialPart.Refuse;
      if state.Active? {
        QueueDial(Dial(id, req));
      } else {
        RefuseDial(Dial(id, req));
        Push(OutboundError(None, id, Disconnected));
      }
    }

    /** Queues a message on an open inbound substream. */
    method Queue(id: SubstreamId, m: Message)
      requires Inbound().Valid() && id in inbound
      modifies this`inbound, this`inboundHistory
      ensures Inbound().Valid() && Grows(old(inboundHistory), inboundHistory)
      ensures inbound == old(inbound)[id := old(inbound)[id].(pendingItems := old(inbound)[id].pendingItems + [m])]
      ensures id in old(inboundHistory) && inboundHistory == old(inboundHistory)[id := old(inboundHistory)[id].(queued := old(inboundHistory)[id].queued + [m])]
    {
      hide InboundPart.Valid, InboundOk;
      Inbound().Known(id);
      var info := inbound[id].(pendingItems := inbound[id].pendingItems + [m]);
      ghost var h := inboundHistory[id];
      QueueOk(inbound[id], h.taken, h.queued, h.budget, m);
      Inbound().SetValid(id, info, h.(queued := h.queued + [m]));
      inbound := inbound[id := info];
      inboundHistory := inboundHistory[id := h.(queued := h.queued + [m])];
    }

    /** Queues a response, reporting an error response. A response for a closed substream or after deactivation is dropped. */
    method SendResponse(id: SubstreamId, response: Message)
      requires Valid()
      modifies this`eventsOut, this`inbound, this`inboundHistory
      ensures Valid() && Grows(old(inboundHistory), inboundHistory)
      ensures eventsOut == old(eventsOut) + (if id in inbound && response.ErrorResponse? then [InboundError(id, ErrorCode(response.code))] else [])
      ensures inbound == if id in old(inbound) && !state.Deactivated?
                         then old(inbound)[id := old(inbound)[id].(pendingItems := old(inbound)[id].pendingItems + [response])]
                         else old(inbound)
    {
      hide InboundPart.Valid, OutboundPart.Valid, ReportPart.Valid, DialPart.Valid;
      if id !in inbound {
        return;
      }
      if response.ErrorResponse? {
        Push(InboundError(id, ErrorCode(response.code)));
      }
      if !state.Deactivated? {
        Queue(id, response);
      }
    }

    // ----- Callbacks -----

    /** Reports an inbound request that is refused, and starts the shutdown. */
    method Refuse(error: RpcError)
      requires Valid() && state.Active?
      modifies this`eventsOut, this`dialQueue, this`state, this`accepted, this`settled
      ensures Valid() && state.ShuttingDown?
      ensures eventsOut == old(eventsOut) + [InboundError(currentInboundId, error)] + Failures(old(dialQueue))
    {
      hide InboundPart.Valid, OutboundPart.Valid, ReportPart.Valid, DialPart.Valid, Failures;
      Push(InboundError(currentInboundId, error));
      Shutdown(None);
    }

    /** Stores an inbound substream that expects responses. */
    method StoreInbound(protocol: Protocol, budget: nat)
      requires Inbound().Valid() && Outbound().Valid() && budget > 0 && |inbound| < MAX_INBOUND_SUBSTREAMS
      modifies this`inbound, this`inboundDelay, this`nextDelayKey, this`inboundHistory, this`currentInboundId
      ensures Inbound().Valid() && Outbound().Valid() && Grows(old(inboundHistory), inboundHistory)
      ensures Inbound() == old(Inbound()).Open(protocol, budget)
    {
      hide InboundPart.Valid, OutboundPart.Valid, Grows;
      Inbound().CurrentIsUnknown();
      GrowsNew(inboundHistory, currentInboundId, InboundHistory([], [], budget));
      Inbound().OpenValid(protocol, budget);
      Outbound().LaterValid(state, nextDelayKey + 1);
      inboundDelay := inboundDelay[nextDelayKey := currentInboundId];
      inbound := inbound[currentInboundId := InboundInfo(Idle, [], protocol, budget, Some(nextDelayKey))];
      inboundHistory := inboundHistory[currentInboundId := InboundHistory([], [], budget)];
      nextDelayKey := nextDelayKey + 1;
      currentInboundId := currentInboundId + 1;
    }

    method RegisterInbound(req: Request)
      requires Inbound().Valid() && Outbound().Valid() && (req.maxResponses > 0 ==> |inbound| < MAX_INBOUND_SUBSTREAMS)
      modifies this`inbound, this`inboundDelay, this`nextDelayKey, this`inboundHistory, this`currentInboundId
      ensures Inbound().Valid() && Outbound().Valid() && Grows(old(inboundHistory), inboundHistory)
      ensures currentInboundId == old(currentInboundId) + 1
      ensures inbound == if req.maxResponses > 0 then old(Inbound()).Open(req.protocol, req.maxResponses).substreams else old(inbound)
    {
      hide InboundPart.Valid, OutboundPart.Valid, Grows;
      GrowsSame(inboundHistory);
      if req.maxResponses > 0 {
        StoreInbound(req.protocol, req.maxResponses);
      } else {
        Inbound().LaterValid(currentInboundId + 1, nextDelayKey);
        currentInboundId := currentInboundId + 1;
      }
    }

    /** Stores an inbound request that expects responses, and reports it. A goodbye shuts the handler down first. */
    method AcceptInbound(req: Request)
      requires Valid() && state.Active? && (req.maxResponses > 0 ==> |inbound| < MAX_INBOUND_SUBSTREAMS)
      modifies this`eventsOut, this`dialQueue, this`state, this`accepted, this`settled
      modifies this`inbound, this`inboundDelay, this`nextDelayKey, this`inboundHistory, this`currentInboundId
      ensures Valid() && Grows(old(inboundHistory), inboundHistory) && currentInboundId == old(currentInboundId) + 1
      ensures state == if req.protocol.Goodbye? then ShuttingDown else Active
      ensures eventsOut == old(eventsOut) + (if req.protocol.Goodbye? then Failures(old(dialQueue)) else []) + [Received(old(currentInboundId), req)]
      ensures inbound == if req.maxResponses > 0 then old(Inbound()).Open(req.protocol, req.maxResponses).substreams else old(inbound)
    {
      hide InboundPart.Valid, OutboundPart.Valid, ReportPart.Valid, DialPart.Valid, Failures, Grows, InboundPart.Open;
      RegisterInbound(req);
      if req.protocol.Goodbye? {
        Shutdown(None);
      }
      Push(Received(currentInboundId - 1, req));
    }

    /**
      A new inbound request. `requested` and `allowed` are the amounts compared for the range protocols.
      Requests over the limit, and requests beyond the substream bound, are refused and shut the handler down.
    */
    method OnFullyNegotiatedInbound(req: Request, requested: nat, allowed: nat)
      requires Valid()
      modifies this`eventsOut, this`dialQueue, this`state, this`accepted, this`settled
      modifies this`inbound, this`inboundDelay, this`nextDelayKey, this`inboundHistory, this`currentInboundId
      ensures Valid() && Forward(old(state), state) && Grows(old(inboundHistory), inboundHistory)
      ensures !old(state).Active? ==> unchanged(this)
      ensures old(state).Active? ==>
                var refusal := Refusal(req, requested, allowed, |old(inbound)|);
                if refusal.Some? then
                  && Inbound() == old(Inbound()) && state.ShuttingDown?
                  && eventsOut == old(eventsOut) + [InboundError(currentInboundId, refusal.value)] + Failures(old(dialQueue))
                else
                  && currentInboundId == old(currentInboundId) + 1 && state.Active? == !req.protocol.Goodbye?
                  && eventsOut == old(eventsOut) + (if req.protocol.Goodbye? then Failures(old(dialQueue)) else []) + [Received(old(currentInboundId), req)]
                  && inbound == if req.maxResponses > 0 then old(Inbound()).Open(req.protocol, req.maxResponses).substreams else old(inbound)
    {
      hide InboundPart.Valid, OutboundPart.Valid, ReportPart.Valid, DialPart.Valid, Failures, Grows, InboundPart.Open;
      GrowsSame(inboundHistory);
      if !state.Active? {
        return;
      }
      if OverLimit(req, requested, allowed) {
        Refuse(InvalidData);
      } else if req.maxResponses > 0 && |inbound| >= MAX_INBOUND_SUBSTREAMS {
        Refuse(HandlerRejected);
      } else {
        AcceptInbound(req);
      }
    }

    /** The failure that is reported for a substream that opens after deactivation. */
    method ReportOpened(d: Dial)
      requires Reports().Valid() && currentOutboundId !in outboundHistory
      modifies this`eventsOut, this`outboundHistory
      ensures Reports().Valid() && outboundHistory == old(outboundHistory)[currentOutboundId := OpenedHistory(d.req, state.Deactivated?)]
      ensures eventsOut == old(eventsOut) + (if state.Deactivated? then [OutboundError(Some(currentOutboundId), d.id, Disconnected)] else [])
    {
      hide ReportPart.Valid;
      ghost var id := currentOutboundId;
      if state.Deactivated? {
        Reports().LateValid(id, d.req, OutboundError(Some(id), d.id, Disconnected));
        eventsOut := eventsOut + [OutboundError(Some(currentOutboundId), d.id, Disconnected)];
      } else {
        Reports().NewValid(id, OutboundHistory(d.req, false, []));
      }
      outboundHistory := outboundHistory[id := OpenedHistory(d.req, state.Deactivated?)];
    }

    /** Stores an outbound substream that expects responses; after deactivation its failure is reported first. */
    method StoreOutbound(d: Dial)
      requires Inbound().Valid() && Outbound().Valid() && Reports().Valid() && Sensible(d.req) && d.req.maxResponses > 0
      modifies this`eventsOut, this`outbound, this`outboundDelay, this`nextDelayKey, this`outboundHistory, this`currentOutboundId
      ensures Inbound().Valid() && Outbound().Valid() && Reports().Valid()
      ensures outbound == old(outbound)[old(currentOutboundId) := NewOutbound(d.req, old(nextDelayKey), d.id)]
      ensures outboundDelay == old(outboundDelay)[old(nextDelayKey) := old(currentOutboundId)] && LogsGrow(old(outboundHistory), outboundHistory)
      ensures eventsOut == old(eventsOut) + (if state.Deactivated? then [OutboundError(Some(old(currentOutboundId)), d.id, Disconnected)] else [])
    {
      hide InboundPart.Valid, OutboundPart.Valid, ReportPart.Valid, NewOutbound, LogsGrow, OpenedHistory;
      Inbound().LaterValid(currentInboundId, nextDelayKey + 1);
      Outbound().OpenValid(d.req, state.Deactivated?, d.id);
      LogsGrowNew(outboundHistory, currentOutboundId, OpenedHistory(d.req, state.Deactivated?));
      ReportOpened(d);
      outbound := outbound[currentOutboundId := NewOutbound(d.req, nextDelayKey, d.id)];
      outboundDelay := outboundDelay[nextDelayKey := currentOutboundId];
      nextDelayKey := nextDelayKey + 1;
      currentOutboundId := currentOutboundId + 1;
    }

    /** A dial is over. */
    method SettleDial(d: Dial)
      requires Dials().Valid() && d in dialling
      modifies this`dialNegotiated, this`dialling, this`settled
      ensures Dials() == old(Dials()).Resolve(d) && Dials().Valid() && Sensible(d.req)
    {
      hide DialPart.Valid;
      Dials().ResolveValid(d);
      dialNegotiated := dialNegotiated - 1;
      dialling, settled := dialling - multiset{d}, settled + multiset{d};
    }

    /** A dial is over, and its request is open again. */
    method ReopenDial(d: Dial)
      requires Dials().Valid() && d in dialling
      modifies this`dialNegotiated, this`dialling, this`accepted
      ensures old(dialNegotiated) >= 1 && Dials() == old(Dials()).Reopen(d) && Dials().Valid()
    {
      hide DialPart.Valid, DialPart.Reopen;
      Dials().ReopenValid(d);
      ghost var after := Dials().Reopen(d);
      dialNegotiated := dialNegotiated - 1;
      dialling, accepted := after.dialling, after.accepted;
    }

    /** A dial is over, and the request is sent again. */
    method RetryDial(d: Dial)
      requires Valid() && d in dialling
      modifies this`eventsOut, this`dialQueue, this`dialNegotiated, this`dialling, this`accepted, this`settled
      ensures Valid() && accepted == old(accepted)
      ensures if state.Active? then dialQueue == old(dialQueue) + [d] && eventsOut == old(eventsOut)
              else dialQueue == old(dialQueue) && eventsOut == old(eventsOut) + [OutboundError(None, d.id, Disconnected)]
    {
      hide InboundPart.Valid, OutboundPart.Valid, ReportPart.Valid, DialPart.Valid;
      hide DialPart.Reopen, DialPart.Accept, DialPart.Refuse;
      Dials().ReopenValid(d);
      Dials().ReopenKeeps(d);
      ReopenDial(d);
      SendRequest(d.id, d.req);
    }

    /** A dial succeeded. The substream is stored if responses are expected, even after deactivation. */
    method OnFullyNegotiatedOutbound(d: Dial)
      requires Valid() && d in dialling
      modifies this`eventsOut, this`outbound, this`outboundDelay, this`nextDelayKey, this`outboundHistory, this`currentOutboundId
      modifies this`dialNegotiated, this`outboundIoErrorRetries, this`dialling, this`settled
      ensures Valid() && Dials() == old(Dials()).Resolve(d) && LogsGrow(old(outboundHistory), outboundHistory) && outboundIoErrorRetries == 0
      ensures eventsOut == old(eventsOut) + if state.Deactivated?
                                            then [OutboundError(if d.req.maxResponses > 0 then Some(old(currentOutboundId)) else None, d.id, Disconnected)]
                                            else []
      ensures d.req.maxResponses > 0 ==> outboundDelay == old(outboundDelay)[old(nextDelayKey) := old(currentOutboundId)]
      ensures outbound == if d.req.maxResponses > 0
                          then old(outbound)[old(currentOutboundId) := NewOutbound(d.req, old(nextDelayKey), d.id)]
                          else old(outbound)
    {
      hide InboundPart.Valid, OutboundPart.Valid, ReportPart.Valid, DialPart.Valid, NewOutbound, DialPart.Resolve, LogsGrow;
      LogsGrowSame(outboundHistory);
      SettleDial(d);
      outboundIoErrorRetries := 0;
      if d.req.maxResponses > 0 {
        StoreOutbound(d);
      } else if state.Deactivated? {
        Push(OutboundError(None, d.id, Disconnected));
      }
    }

    /** A dial is over, and the request failed. */
    method FailDial(d: Dial, error: RpcError)
      requires Valid() && d in dialling
      modifies this`eventsOut, this`dialNegotiated, this`dialling, this`settled
      ensures Valid() && eventsOut == old(eventsOut) + [OutboundError(None, d.id, error)]
    {
      hide InboundPart.Valid, OutboundPart.Valid, ReportPart.Valid, DialPart.Valid, DialPart.Resolve;
      SettleDial(d);
      Push(OutboundError(None, d.id, error));
    }

    /** A dial failed. I/O errors are retried, at most twice in a row; the request is then queued again, not lost. */
    method OnDialUpgradeError(d: Dial, error: UpgradeError)
      requires Valid() && d in dialling
      modifies this`eventsOut, this`dialQueue, this`dialNegotiated, this`outboundIoErrorRetries, this`dialling, this`accepted, this`settled
      ensures Valid() && accepted == old(accepted) && outboundIoErrorRetries == RetriesAfter(old(outboundIoErrorRetries), error)
      ensures if Retried(old(outboundIoErrorRetries), error) && state.Active?
              then dialQueue == old(dialQueue) + [d] && eventsOut == old(eventsOut)
              else dialQueue == old(dialQueue) && eventsOut == old(eventsOut) +
                     [OutboundError(None, d.id, if Retried(old(outboundIoErrorRetries), error) then Disconnected else UpgradeFailure(error))]
    {
      hide InboundPart.Valid, OutboundPart.Valid, ReportPart.Valid, DialPart.Valid, DialPart.Resolve, UpgradeFailure;
      if error.UpgradeIo? {
        outboundIoErrorRetries := outboundIoErrorRetries + 1;
        if outboundIoErrorRetries < IO_ERROR_RETRIES {
          RetryDial(d);
          return;
        }
      }
      outboundIoErrorRetries := 0;
      FailDial(d, UpgradeFailure(error));
    }

    // ----- Polling -----

    method PushErrors(id: SubstreamId, errors: seq<RpcError>)
      requires Reports().Valid() && AllQuiet(eventsOut)
      modifies this`eventsOut
      ensures Reports().Valid() && AllQuiet(eventsOut) && eventsOut == old(eventsOut) + InboundErrors(id, errors)
    {
      hide ReportPart.Valid;
      for i := 0 to |errors|
        invariant Reports().Valid() && AllQuiet(eventsOut) && eventsOut == old(eventsOut) + InboundErrors(id, errors[..i])
      {
        assert InboundErrors(id, errors[..i + 1]) == InboundErrors(id, errors[..i]) + [InboundError(id, errors[i])];
        Push(InboundError(id, errors[i]));
      }
      assert errors[..|errors|] == errors;
    }

    /** An inbound timer ran out: it is reported, and an unfinished response is ended with an error. */
    method ExpireInbound(k: DelayKey)
      requires Inbound().Valid() && Reports().Valid() && k in inboundDelay && AllQuiet(eventsOut)
      modifies this`inbound, this`inboundDelay, this`inboundHistory, this`eventsOut
      ensures Inbound().Valid() && Reports().Valid() && AllQuiet(eventsOut) && Grows(old(inboundHistory), inboundHistory)
      ensures inboundDelay == old(inboundDelay) - {k}
      ensures eventsOut == old(eventsOut) + [InboundError(old(inboundDelay)[k], StreamTimeout)]
      ensures old(inboundDelay)[k] in old(inbound) && old(inbound)[old(inboundDelay)[k]].delayKey == Some(k)
      ensures inbound == old(inbound)[old(inboundDelay)[k] := TimedOut(old(inbound)[old(inboundDelay)[k]])]
      ensures var id := old(inboundDelay)[k];
              id in old(inboundHistory) && inboundHistory == old(inboundHistory)[id := TimedOutHistory(old(inbound)[id], old(inboundHistory)[id])]
    {
      hide InboundPart.Valid, ReportPart.Valid, Grows;
      GrowsSame(inboundHistory);
      Inbound().ExpireValid(k);
      Inbound().Named(k);
      Inbound().Known(inboundDelay[k]);
      var id := inboundDelay[k];
      inbound := inbound[id := inbound[id].(delayKey := None)];
      inboundDelay := inboundDelay - {k};
      Push(InboundError(id, StreamTimeout));
      var pending := inbound[id].pendingItems;
      if pending != [] && !pending[|pending| - 1].CloseAfter() {
        Queue(id, ErrorResponse(SERVER_ERROR));
      }
    }

    /** Every expired timer is handled and reported, one event each. */
    method PurgeInbound(expired: set<DelayKey>)
      requires Inbound().Valid() && Reports().Valid() && AllQuiet(eventsOut)
      modifies this`inbound, this`inboundDelay, this`inboundHistory, this`eventsOut
      ensures Inbound().Valid() && Reports().Valid() && AllQuiet(eventsOut) && Grows(old(inboundHistory), inboundHistory)
      ensures inboundDelay == old(inboundDelay) - expired
      ensures TimedOutBy(expired * old(inboundDelay).Keys, old(inbound), old(inboundHistory), inbound, inboundHistory)
      ensures TimeoutsReported(expired * old(inboundDelay).Keys, old(inboundDelay), old(eventsOut), eventsOut)
    {
      hide InboundPart.Valid, ReportPart.Valid, AllQuiet, Grows, TimedOutBy, TimedOut, TimeoutsReported, Purging;
      var todo := expired * inboundDelay.Keys;
      ghost var done, delay0 := {}, inboundDelay;
      GrowsSame(inboundHistory);
      NothingTimedOut(inbound, inboundHistory, inboundDelay, eventsOut);
      PurgingStarts(expired, delay0);
      while todo != {}
        invariant Inbound().Valid() && Reports().Valid() && AllQuiet(eventsOut) && Grows(old(inboundHistory), inboundHistory)
        invariant Purging(expired, delay0, todo, done, inboundDelay)
        invariant TimedOutBy(done, old(inbound), old(inboundHistory), inbound, inboundHistory) && TimeoutsReported(done, delay0, old(eventsOut), eventsOut)
        decreases |todo|
      {
        var k :| k in todo;
        PurgingGoesOn(expired, delay0, todo, done, inboundDelay, k);
        ExpireNext(k, done, old(inboundHistory), old(inbound), delay0, old(eventsOut));
        todo := todo - {k};
        done := done + {k};
      }
      PurgingEnds(expired, delay0, done, inboundDelay);
    }

    /** One more expired timer is handled. */
    method ExpireNext(k: DelayKey, ghost done: set<DelayKey>, ghost history0: map<SubstreamId, InboundHistory>,
                      ghost inbound0: map<SubstreamId, InboundInfo>, ghost delay0: DelayQueue, ghost events0: seq<Event>)
      requires Inbound().Valid() && Reports().Valid() && AllQuiet(eventsOut) && Grows(history0, inboundHistory)
      requires k in inboundDelay && k !in done && inboundDelay == delay0 - done
      requires TimedOutBy(done, inbound0, history0, inbound, inboundHistory) && TimeoutsReported(done, delay0, events0, eventsOut)
      modifies this`inbound, this`inboundDelay, this`inboundHistory, this`eventsOut
      ensures Inbound().Valid() && Reports().Valid() && AllQuiet(eventsOut) && Grows(history0, inboundHistory)
      ensures inboundDelay == delay0 - (done + {k})
      ensures TimedOutBy(done + {k}, inbound0, history0, inbound, inboundHistory) && TimeoutsReported(done + {k}, delay0, events0, eventsOut)
    {
      hide InboundPart.Valid, ReportPart.Valid, AllQuiet, Grows, TimedOutBy, TimedOut, TimedOutHistory, TimeoutsReported;
      ghost var before, mid, events, id := inboundHistory, inbound, eventsOut, inboundDelay[k];
      Inbound().Named(k);
      ExpireInbound(k);
      GrowsOn(history0, before, inboundHistory);
      TimedOutNext(done, k, inbound0, history0, mid, before, id);
      ReportedNext(done, k, delay0, events0, events);
    }

    /** An outbound timer ran out: its substream is in the books, is dropped, and the timeout is returned. */
    method ExpireOutbound(k: DelayKey) returns (e: Event)
      requires Outbound().Valid() && Reports().Valid() && k in outboundDelay && AllQuiet(eventsOut)
      modifies this`outbound, this`outboundDelay, this`outboundHistory, this`returned
      ensures Outbound().Valid() && Reports().Valid() && returned == old(returned) + [e] && e.OutboundError?
      ensures old(outboundDelay)[k] in old(outbound) && outbound == old(outbound) - {old(outboundDelay)[k]} && outboundDelay == old(outboundDelay) - {k}
      ensures e == OutboundError(Some(old(outboundDelay)[k]), old(outbound)[old(outboundDelay)[k]].reqId, StreamTimeout)
      ensures LogsGrow(old(outboundHistory), outboundHistory)
      ensures var id := old(outboundDelay)[k];
              id in old(outboundHistory) && outboundHistory == old(outboundHistory)[id := old(outboundHistory)[id].(log := old(outboundHistory)[id].log + [E])]
    {
      hide OutboundPart.Valid, ReportPart.Valid, OutboundOk, OutboundHistoryOk, LogsGrow;
      Outbound().Expiring(k);
      var id := outboundDelay[k];
      QuietProject(eventsOut, id);
      e := OutboundError(Some(id), outbound[id].reqId, StreamTimeout);
      ghost var log := outboundHistory[id].log + [E];
      LogsGrowOne(outboundHistory, id, log);
      Reports().ReturnValid(e, id, E);
      Outbound().CloseValid(id, log);
      outboundDelay := outboundDelay - {k};
      outbound := outbound - {id};
      outboundHistory := outboundHistory[id := outboundHistory[id].(log := log)];
      returned := returned + [e];
    }

    method ApplyInbound(id: SubstreamId, left: Option<InboundInfo>, ghost taken: seq<Message>)
      requires Inbound().Valid() && id in inbound && id in inboundHistory && inboundHistory[id].taken <= taken
      requires InboundHistoryOk(taken, inboundHistory[id].queued, inboundHistory[id].budget)
      requires left.Some? ==> left.value.delayKey == inbound[id].delayKey && InboundOk(left.value, taken, inboundHistory[id].queued, inboundHistory[id].budget)
      modifies this`inbound, this`inboundDelay, this`inboundHistory
      ensures Inbound().Valid() && Grows(old(inboundHistory), inboundHistory)
      ensures inbound == (if left.None? then old(inbound) - {id} else old(inbound)[id := left.value])
      ensures inboundHistory == old(inboundHistory)[id := old(inboundHistory)[id].(taken := taken)]
    {
      hide InboundPart.Valid, InboundOk, InboundHistoryOk, Grows;
      ghost var h := inboundHistory[id].(taken := taken);
      GrowsOne(inboundHistory, id, taken);
      if left.None? {
        Inbound().CloseValid(id, h);
        inboundDelay := WithoutKey(inboundDelay, inbound[id].delayKey);
        inbound := inbound - {id};
      } else {
        Inbound().SetValid(id, left.value, h);
        inbound := inbound[id := left.value];
      }
      inboundHistory := inboundHistory[id := h];
    }

    /** Drives one inbound substream: what is left of it is stored, and its errors are queued. */
    method PollInboundSubstream(id: SubstreamId, send: (SubstreamId, nat) -> SendPoll)
      returns (ghost errors: seq<RpcError>, ghost taken: seq<Message>, ghost polls: nat)
      requires Inbound().Valid() && Reports().Valid() && AllQuiet(eventsOut) && id in inbound
      modifies this`inbound, this`inboundDelay, this`inboundHistory, this`eventsOut
      ensures Inbound().Valid() && Reports().Valid() && AllQuiet(eventsOut) && Grows(old(inboundHistory), inboundHistory)
      ensures inbound - {id} == old(inbound) - {id} && id in old(inboundHistory)
      ensures DriveOk(id, old(inbound)[id], old(inboundHistory)[id], state.Deactivated?, send, At(inbound, id), errors, taken, polls)
      ensures inboundHistory == old(inboundHistory)[id := old(inboundHistory)[id].(taken := taken)]
      ensures eventsOut == old(eventsOut) + InboundErrors(id, errors)
    {
      hide InboundPart.Valid, ReportPart.Valid, AllQuiet, InboundOk, InboundHistoryOk, Grows, DriveOk, InboundErrors;
      Inbound().Known(id);
      var left, errs, t, n := DriveInbound(id, inbound[id], state.Deactivated?, send, inboundDelay, inboundHistory[id]);
      DriveOkMeans(id, inbound[id], inboundHistory[id], state.Deactivated?, send, left, errs, t, n);
      errors, taken, polls := errs, t, n;
      ApplyInbound(id, left, t);
      PushErrors(id, errs);
    }

    /** One more inbound substream is driven. */
    method PollInboundNext(id: SubstreamId, send: (SubstreamId, nat) -> SendPoll, ghost inbound0: map<SubstreamId, InboundInfo>,
                           ghost history0: map<SubstreamId, InboundHistory>, ghost events0: seq<Event>, ghost done: set<SubstreamId>)
      requires Inbound().Valid() && Reports().Valid() && AllQuiet(eventsOut) && id in inbound0 && id !in done
      requires InboundSoFar(inbound0, history0, events0, inbound, inboundHistory, eventsOut, state.Deactivated?, send, done)
      modifies this`inbound, this`inboundDelay, this`inboundHistory, this`eventsOut
      ensures Inbound().Valid() && Reports().Valid() && AllQuiet(eventsOut)
      ensures InboundSoFar(inbound0, history0, events0, inbound, inboundHistory, eventsOut, state.Deactivated?, send, done + {id})
    {
      hide InboundPart.Valid, ReportPart.Valid, AllQuiet, Grows, InboundSoFar, DriveOk, InboundErrors;
      ghost var history, was, events := inboundHistory, inbound, eventsOut;
      StillThere(inbound0, history0, events0, inbound, inboundHistory, eventsOut, state.Deactivated?, send, done, id);
      ghost var errors, taken, polls := PollInboundSubstream(id, send);
      InboundSoFarNext(inbound0, history0, events0, was, history, events, inbound, inboundHistory, state.Deactivated?, send, done, id, errors, taken, polls);
    }

    /** Drives every inbound substream. */
    method PollInbound(send: (SubstreamId, nat) -> SendPoll)
      requires Inbound().Valid() && Reports().Valid() && AllQuiet(eventsOut)
      modifies this`inbound, this`inboundDelay, this`inboundHistory, this`eventsOut
      ensures Inbound().Valid() && Reports().Valid() && AllQuiet(eventsOut)
      ensures InboundSoFar(old(inbound), old(inboundHistory), old(eventsOut), inbound, inboundHistory, eventsOut, state.Deactivated?, send, old(inbound).Keys)
    {
      hide InboundPart.Valid, ReportPart.Valid, AllQuiet, InboundSoFar;
      ghost var inbound0, history0, events0 := inbound, inboundHistory, eventsOut;
      Inbound().AllKnown();
      InboundNotPolled(inbound, inboundHistory, eventsOut, state.Deactivated?, send);
      var todo := inbound.Keys;
      ghost var done := {};
      while todo != {}
        invariant Inbound().Valid() && Reports().Valid() && AllQuiet(eventsOut) && done !! todo && done + todo == inbound0.Keys
        invariant InboundSoFar(inbound0, history0, events0, inbound, inboundHistory, eventsOut, state.Deactivated?, send, done)
        decreases |todo|
      {
        var id :| id in todo;
        PollInboundNext(id, send, inbound0, history0, events0, done);
        todo := todo - {id};
        done := done + {id};
      }
      assert done == inbound0.Keys;
    }

    method ApplyOutbound(id: SubstreamId, left: Option<OutboundInfo>, ghost event: Option<Event>, ghost k: Option<Kind>)
      requires Outbound().Valid() && id in outbound && id in outboundHistory && PollOk(outbound[id], outboundHistory[id], left, id, event, k)
      modifies this`outbound, this`outboundDelay, this`outboundHistory
      ensures Outbound().Valid() && LogsGrow(old(outboundHistory), outboundHistory)
      ensures outboundHistory == old(outboundHistory)[id := old(outboundHistory)[id].(log := Extended(old(outboundHistory)[id].log, k))]
      ensures if left.Some? then outbound == old(outbound)[id := left.value] && outboundDelay == old(outboundDelay) else outbound == old(outbound) - {id}
    {
      hide OutboundPart.Valid, OutboundOk, OutboundHistoryOk, LogsGrow;
      ghost var log := Extended(outboundHistory[id].log, k);
      LogsGrowOne(outboundHistory, id, log);
      hide Extended;
      if left.Some? {
        Outbound().SetValid(id, left.value, log);
        outbound := outbound[id := left.value];
      } else {
        Outbound().CloseValid(id, log);
        outboundDelay := outboundDelay - {outbound[id].delayKey};
        outbound := outbound - {id};
      }
      outboundHistory := outboundHistory[id := outboundHistory[id].(log := log)];
    }

    /** Hands an event of a substream out at once, or queues it. */
    method ReportEvent(id: SubstreamId, event: Option<Event>, waits: bool, ghost k: Option<Kind>) returns (r: Option<Event>)
      requires Reports().Valid() && id in outboundHistory && Project(eventsOut, id) == []
      requires event.Some? == k.Some? && (event.Some? ==> From(event.value, id, k.value)) && (waits ==> k != Some(R))
      modifies this`eventsOut, this`returned
      ensures ReportPart(outboundHistory[id := outboundHistory[id].(log := Extended(outboundHistory[id].log, k))], state, returned, eventsOut).Valid()
      ensures r == (if waits then None else event) && eventsOut == old(eventsOut) + (if waits && event.Some? then [event.value] else [])
      ensures returned == old(returned) + (if r.Some? then [r.value] else []) && r != Some(Close)
      ensures forall s :: s != id ==> Project(eventsOut, s) == Project(old(eventsOut), s)
    {
      hide ReportPart.Valid, Project;
      r := if waits then None else event;
      if event.None? {
        assert outboundHistory[id := outboundHistory[id].(log := Extended(outboundHistory[id].log, k))] == outboundHistory;
      } else if waits {
        Reports().PushFromValid(event.value, id, k.value);
        OthersKept(eventsOut, event.value, id, k.value);
        eventsOut := eventsOut + [event.value];
      } else {
        Reports().ReturnValid(event.value, id, k.value);
        returned := returned + [event.value];
      }
    }

    /** Polls one outbound substream. What it reports comes after everything it reported before. */
    method PollOutboundSubstream(id: SubstreamId, read: ReadPoll, closed: bool) returns (r: Option<Event>)
      requires Outbound().Valid() && Reports().Valid() && id in outbound && Project(eventsOut, id) == []
      modifies this`outbound, this`outboundDelay, this`outboundHistory, this`eventsOut, this`returned
      ensures Outbound().Valid() && Reports().Valid() && LogsGrow(old(outboundHistory), outboundHistory)
      ensures returned == old(returned) + (if r.Some? then [r.value] else []) && r != Some(Close)
      ensures var left := Left(old(outbound)[id], state.Deactivated?, read, closed);
              if left.Some? then outbound == old(outbound)[id := left.value] && outboundDelay == old(outboundDelay) else outbound == old(outbound) - {id}
      ensures var e := Reported(id, old(outbound)[id], state.Deactivated?, read, closed);
              if Waits(old(outbound)[id], state.Deactivated?) then r.None? && e.Some? && eventsOut == old(eventsOut) + [e.value]
              else r == e && eventsOut == old(eventsOut)
      ensures forall s :: s != id ==> Project(eventsOut, s) == Project(old(eventsOut), s)
    {
      hide OutboundPart.Valid, ReportPart.Valid, OutboundOk, OutboundHistoryOk, Project, Sensible, Reported, Left, LogsGrow, Tally, Waits;
      Outbound().Known(id);
      var waits := Waits(outbound[id], state.Deactivated?);
      var left, event, k := DriveOutbound(id, outbound[id], state.Deactivated?, read, closed, outboundDelay, outboundHistory[id]);
      hide Extended;
      r := ReportEvent(id, event, waits, k);
      ApplyOutbound(id, left, event, k);
    }

    /** One more outbound substream is polled. */
    method PollOutboundNext(id: SubstreamId, read: SubstreamId -> ReadPoll, closed: SubstreamId -> bool, ghost outbound0: map<SubstreamId, OutboundInfo>,
                            ghost logs0: map<SubstreamId, OutboundHistory>, ghost events0: seq<Event>, ghost ids: set<SubstreamId>, ghost todo: set<SubstreamId>)
      returns (r: Option<Event>)
      requires Outbound().Valid() && Reports().Valid() && id in outbound0 && id !in ids && id in todo && QuietFor(eventsOut, todo)
      requires OutboundSoFar(outbound0, logs0, events0, outbound, outboundHistory, eventsOut, state.Deactivated?, read, closed, ids)
      modifies this`outbound, this`outboundDelay, this`outboundHistory, this`eventsOut, this`returned
      ensures Outbound().Valid() && Reports().Valid() && QuietFor(eventsOut, todo - {id})
      ensures returned == old(returned) + (if r.Some? then [r.value] else []) && r != Some(Close)
      ensures OutboundReached(outbound0, logs0, events0, outbound, outboundHistory, eventsOut, state.Deactivated?, read, closed, ids, id, r)
    {
      hide OutboundPart.Valid, ReportPart.Valid, Project, LogsGrow, OutboundSoFar, OutboundReached, Reported, Left, Waits, QuietFor;
      QuietForOne(eventsOut, todo, id);
      ghost var was, logs, events := outbound, outboundHistory, eventsOut;
      NotPolledYet(outbound0, logs0, events0, outbound, outboundHistory, eventsOut, state.Deactivated?, read, closed, ids, id);
      r := PollOutboundSubstream(id, read(id), closed(id));
      QuietForRest(events, eventsOut, todo, id);
      OutboundReachedNext(outbound0, logs0, events0, was, logs, events, outbound, outboundHistory, eventsOut, state.Deactivated?, read, closed, ids, id, r);
    }

    /** Polls the outbound substreams, up to the first that has something to report at once. */
    method PollOutbound(read: SubstreamId -> ReadPoll, closed: SubstreamId -> bool) returns (r: Option<Event>, ghost ids: set<SubstreamId>)
      requires Outbound().Valid() && Reports().Valid() && AllQuiet(eventsOut)
      modifies this`outbound, this`outboundDelay, this`outboundHistory, this`eventsOut, this`returned
      ensures Outbound().Valid() && Reports().Valid() && LogsGrow(old(outboundHistory), outboundHistory)
      ensures returned == old(returned) + (if r.Some? then [r.value] else []) && r != Some(Close)
      ensures old(eventsOut) <= eventsOut
      ensures OutboundSpec(old(outbound), outbound, state.Deactivated?, read, closed, ids, eventsOut[|old(eventsOut)|..], r)
    {
      hide OutboundPart.Valid, ReportPart.Valid, AllQuiet, LogsGrow, OutboundSoFar, OutboundReached, OutboundSpec, QuietFor;
      ghost var outbound0, logs0, events0 := outbound, outboundHistory, eventsOut;
      OutboundNotPolled(outbound, outboundHistory, eventsOut, state.Deactivated?, read, closed);
      var todo := outbound.Keys;
      ids := {};
      QuietForAll(eventsOut, todo);
      while todo != {}
        invariant Outbound().Valid() && Reports().Valid() && returned == old(returned) && ids !! todo && ids + todo == outbound0.Keys && QuietFor(eventsOut, todo)
        invariant OutboundSoFar(outbound0, logs0, events0, outbound, outboundHistory, eventsOut, state.Deactivated?, read, closed, ids)
        decreases |todo|
      {
        var id :| id in todo;
        r := PollOutboundNext(id, read, closed, outbound0, logs0, events0, ids, todo);
        ReachedMeans(outbound0, logs0, events0, outbound, outboundHistory, eventsOut, state.Deactivated?, read, closed, ids, id, r);
        todo := todo - {id};
        ids := ids + {id};
        if r.Some? {
          return;
        }
      }
      assert ids == outbound0.Keys;
      AllReached(outbound0, logs0, events0, outbound, outboundHistory, eventsOut, state.Deactivated?, read, closed);
      r := None;
    }

    /** The handler is closed for good. */
    method Deactivate() returns (e: Event)
      requires Outbound().Valid() && Reports().Valid() && state.ShuttingDown?
      modifies this`state, this`returned
      ensures Outbound().Valid() && Reports().Valid() && state.Deactivated? && e == Close && returned == old(returned) + [e]
    {
      hide OutboundPart.Valid, ReportPart.Valid;
      Outbound().LaterValid(Deactivated, nextDelayKey);
      Reports().CloseValid();
      e := Close;
      state := Deactivated;
      returned := returned + [Close];
    }

    method PurgeOutbound(expired: set<DelayKey>) returns (r: Option<Event>)
      requires Outbound().Valid() && Reports().Valid() && AllQuiet(eventsOut)
      modifies this`outbound, this`outboundDelay, this`outboundHistory, this`returned
      ensures Outbound().Valid() && Reports().Valid()
      ensures returned == old(returned) + (if r.Some? then [r.value] else []) && r != Some(Close)
      ensures OutboundTimers(expired, old(outbound), old(outboundDelay), outbound, outboundDelay, r)
      ensures LogsGrow(old(outboundHistory), outboundHistory)
    {
      hide OutboundPart.Valid, ReportPart.Valid, AllQuiet, LogsGrow;
      LogsGrowSame(outboundHistory);
      if expired * outboundDelay.Keys == {} {
        return None;
      }
      var k :| k in expired * outboundDelay.Keys;
      ghost var outbound0, delay0 := outbound, outboundDelay;
      var e := ExpireOutbound(k);
      assert ExpiredAt(k, expired, outbound0, delay0, outbound, outboundDelay, e);
      r := Some(e);
    }

    method PollTimers(env: Env) returns (r: Option<Event>)
      requires Inbound().Valid() && Outbound().Valid() && Reports().Valid() && AllQuiet(eventsOut)
      modifies this`inbound, this`inboundDelay, this`inboundHistory, this`eventsOut
      modifies this`outbound, this`outboundDelay, this`outboundHistory, this`returned
      ensures Inbound().Valid() && Outbound().Valid() && Reports().Valid() && AllQuiet(eventsOut)
      ensures Grows(old(inboundHistory), inboundHistory) && LogsGrow(old(outboundHistory), outboundHistory)
      ensures returned == old(returned) + (if r.Some? then [r.value] else []) && r != Some(Close)
      ensures TimersSpec(env, old(Snapshot()), Snapshot(), r)
    {
      hide InboundPart.Valid, OutboundPart.Valid, ReportPart.Valid, AllQuiet, Grows, LogsGrow, TimedOutBy, TimeoutsReported, OutboundTimers;
      PurgeInbound(env.inboundExpired);
      r := PurgeOutbound(env.outboundExpired);
    }

    method PollSubstreams(env: Env) returns (r: Option<Event>)
      requires Inbound().Valid() && Outbound().Valid() && Reports().Valid() && AllQuiet(eventsOut)
      modifies this`inbound, this`inboundDelay, this`inboundHistory, this`eventsOut
      modifies this`outbound, this`outboundDelay, this`outboundHistory, this`returned
      ensures Inbound().Valid() && Outbound().Valid() && Reports().Valid() && Grows(old(inboundHistory), inboundHistory)
      ensures LogsGrow(old(outboundHistory), outboundHistory)
      ensures returned == old(returned) + (if r.Some? then [r.value] else []) && r != Some(Close)
      ensures SubstreamsSpec(env, old(Snapshot()), Snapshot(), r)
      ensures r.None? && !state.Deactivated? ==> Drained(inbound, inbound.Keys) && Listened(old(outbound), old(outbound).Keys, env.read)
    {
      hide InboundPart.Valid, OutboundPart.Valid, ReportPart.Valid, AllQuiet, Grows, LogsGrow, Drained, Listened, InboundPolled, OutboundSpec, InboundSoFar;
      ghost var v0 := Snapshot();
      PollInbound(env.send);
      ghost var n, mid := |eventsOut|, eventsOut;
      InboundAllPolled(v0.inbound, v0.inboundHistory, v0.events, inbound, inboundHistory, eventsOut, state.Deactivated?, env.send);
      ghost var ids;
      r, ids := PollOutbound(env.read, env.closed);
      assert eventsOut[|v0.events|..n] == mid[|v0.events|..];
      assert SubstreamsWith(env, v0, Snapshot(), r, n, ids);
      if r.None? && !state.Deactivated? {
        SilentIsListened(v0.outbound, outbound, env.read, env.closed, ids, eventsOut[n..]);
      }
    }

    /** Starts dialling the oldest queued request. */
    method OpenDial() returns (d: Dial)
      requires Dials().Valid() && dialQueue != [] && dialNegotiated < MAX_DIAL_NEGOTIATED
      modifies this`dialQueue, this`dialNegotiated, this`dialling
      ensures Dials().Valid() && d == old(dialQueue)[0] && dialQueue == old(dialQueue)[1..] && d in dialling
      ensures dialNegotiated == old(dialNegotiated) + 1 && dialling == old(dialling) + multiset{d}
    {
      hide DialPart.Valid;
      Dials().OpenValid();
      d := dialQueue[0];
      dialQueue := dialQueue[1..];
      dialNegotiated := dialNegotiated + 1;
      dialling := dialling + multiset{d};
    }

    /** The oldest queued event is returned. */
    method TakeEvent() returns (e: Event)
      requires Reports().Valid() && eventsOut != []
      modifies this`eventsOut, this`returned
      ensures Reports().Valid() && e == old(eventsOut)[0] && eventsOut == old(eventsOut)[1..] && returned == old(returned) + [e] && e != Close
    {
      hide ReportPart.Valid;
      Reports().NoCloseQueued();
      Reports().ShiftValid();
      e := eventsOut[0];
      eventsOut := eventsOut[1..];
      returned := returned + [e];
    }

    /**
      One poll: queued events first, then timers, inbound and outbound substreams, a new dial, and the end of a shutdown.
      Close is returned exactly when the handler is deactivated, and a shutdown waits only for what is still open.
    */
    method Poll(env: Env) returns (r: PollResult)
      requires Valid()
      modifies this`eventsOut, this`inbound, this`inboundDelay, this`inboundHistory, this`outbound, this`outboundDelay, this`outboundHistory
      modifies this`dialQueue, this`dialNegotiated, this`dialling, this`state, this`returned
      ensures Valid() && Forward(old(state), state) && Grows(old(inboundHistory), inboundHistory) && LogsGrow(old(outboundHistory), outboundHistory)
      ensures PollSpec(env, old(Snapshot()), Snapshot(), r)
      ensures returned == old(returned) + (if r.Notify? then [r.event] else [])
      ensures dialling == old(dialling) + if r.OpenSubstream? then multiset{r.dial} else multiset{}
      ensures r == Notify(Close) <==> state != old(state)
      ensures if r.OpenSubstream? then old(dialQueue) != [] && r.dial == old(dialQueue)[0] && dialQueue == old(dialQueue)[1..] else dialQueue == old(dialQueue)
      ensures r.Pending? ==> Waiting() && NothingToDo(env, old(outbound), old(outboundDelay), inbound, state.Deactivated?)
    {
      hide InboundPart.Valid, OutboundPart.Valid, ReportPart.Valid, DialPart.Valid, Grows, LogsGrow, NothingToDo, Waiting, ReportsSpec, IdleSpec;
      GrowsSame(inboundHistory);
      LogsGrowSame(outboundHistory);
      if eventsOut != [] {
        var e := TakeEvent();
        r := Notify(e);
      } else if state.ShuttingDown? && env.shutdownElapsed {
        var e := Deactivate();
        r := Notify(e);
      } else {
        ghost var v0 := Snapshot();
        ghost var mid, reported;
        r, mid, reported := PollOpen(env);
      }
    }

    /** The first event that a timer or a substream has to report at once. */
    method PollReports(env: Env) returns (r: Option<Event>)
      requires Inbound().Valid() && Outbound().Valid() && Reports().Valid() && AllQuiet(eventsOut)
      modifies this`inbound, this`inboundDelay, this`inboundHistory, this`eventsOut
      modifies this`outbound, this`outboundDelay, this`outboundHistory, this`returned
      ensures Inbound().Valid() && Outbound().Valid() && Reports().Valid() && Grows(old(inboundHistory), inboundHistory)
      ensures LogsGrow(old(outboundHistory), outboundHistory)
      ensures returned == old(returned) + (if r.Some? then [r.value] else []) && r != Some(Close)
      ensures ReportsSpec(env, old(Snapshot()), Snapshot(), r)
      ensures r.None? ==> NothingToDo(env, old(outbound), old(outboundDelay), inbound, state.Deactivated?)
    {
      hide InboundPart.Valid, OutboundPart.Valid, ReportPart.Valid, AllQuiet, Grows, LogsGrow, Drained, Listened, SubstreamsSpec, TimersSpec;
      ghost var v0 := Snapshot();
      r := PollTimers(env);
      ghost var mid := Snapshot();
      TimersLeave(env, v0, mid, r);
      if r.None? {
        ghost var before, logs := inboundHistory, outboundHistory;
        r := PollSubstreams(env);
        GrowsOn(old(inboundHistory), before, inboundHistory);
        LogsGrowOn(old(outboundHistory), logs, outboundHistory);
      }
    }

    /** A poll with no queued event and no shutdown timeout. */
    method PollOpen(env: Env) returns (r: PollResult, ghost mid: View, ghost reported: Option<Event>)
      requires Valid() && eventsOut == []
      modifies this`eventsOut, this`inbound, this`inboundDelay, this`inboundHistory, this`outbound, this`outboundDelay, this`outboundHistory
      modifies this`dialQueue, this`dialNegotiated, this`dialling, this`state, this`returned
      ensures Valid() && Forward(old(state), state) && Grows(old(inboundHistory), inboundHistory) && LogsGrow(old(outboundHistory), outboundHistory)
      ensures ReportsSpec(env, old(Snapshot()), mid, reported)
      ensures if reported.Some? then r == Notify(reported.value) && Snapshot() == mid else IdleSpec(mid, Snapshot(), r)
      ensures returned == old(returned) + (if r.Notify? then [r.event] else [])
      ensures dialling == old(dialling) + if r.OpenSubstream? then multiset{r.dial} else multiset{}
      ensures r == Notify(Close) <==> state != old(state)
      ensures if r.OpenSubstream? then old(dialQueue) != [] && r.dial == old(dialQueue)[0] && dialQueue == old(dialQueue)[1..] else dialQueue == old(dialQueue)
      ensures r.Pending? ==> Waiting() && NothingToDo(env, old(outbound), old(outboundDelay), inbound, state.Deactivated?)
    {
      hide InboundPart.Valid, OutboundPart.Valid, ReportPart.Valid, DialPart.Valid, Grows, LogsGrow, Forward, Waiting, NothingToDo, ReportsSpec, IdleSpec;
      NothingIsQuiet(eventsOut);
      var e := PollReports(env);
      mid, reported := Snapshot(), e;
      ForwardSame(state);
      if e.Some? {
        r := Notify(e.value);
      } else {
        r := PollIdle();
      }
    }

    /** A poll finds nothing to do: no dial can start, and a shutdown waits for something still open. */
    ghost predicate Waiting()
      reads this
    {
      && (dialQueue == [] || dialNegotiated == MAX_DIAL_NEGOTIATED)
      && (state.ShuttingDown? ==> outbound.Keys != {} || inbound.Keys != {} || eventsOut != [] || dialNegotiated > 0)
    }

    /** The end of a poll, when nothing was reported. */
    method PollIdle() returns (r: PollResult)
      requires Valid()
      modifies this`dialQueue, this`dialNegotiated, this`dialling, this`state, this`returned
      ensures Valid() && Forward(old(state), state) && IdleSpec(old(Snapshot()), Snapshot(), r)
      ensures returned == old(returned) + (if r.Notify? then [r.event] else [])
      ensures dialling == old(dialling) + if r.OpenSubstream? then multiset{r.dial} else multiset{}
      ensures r == Notify(Close) <==> state != old(state)
      ensures if r.OpenSubstream? then old(dialQueue) != [] && r.dial == old(dialQueue)[0] && dialQueue == old(dialQueue)[1..] else dialQueue == old(dialQueue)
      ensures r.Pending? ==> Waiting()
    {
      hide InboundPart.Valid, OutboundPart.Valid, ReportPart.Valid, DialPart.Valid;
      Dials().Bounded();
      if dialQueue != [] && dialNegotiated < MAX_DIAL_NEGOTIATED {
        var d := OpenDial();
        return OpenSubstream(d);
      }
      if state.ShuttingDown? && dialQueue == [] && outbound.Keys == {} && inbound.Keys == {} && eventsOut == [] && dialNegotiated == 0 {
        var e := Deactivate();
        return Notify(e);
      }
      r := Pending;
    }
  }

  predicate OverLimit(req: Request, requested: nat, allowed: nat) {
    (req.protocol.BlocksByRange? || req.protocol.BlobsByRange?) && requested > allowed
  }

  /** Why an inbound request is refused, if it is. */
  function Refusal(req: Request, requested: nat, allowed: nat, open: nat): Option<RpcError> {
    if OverLimit(req, requested, allowed) then Some(InvalidData)
    else if req.maxResponses > 0 && open >= MAX_INBOUND_SUBSTREAMS then Some(HandlerRejected)
    else None
  }

  /** An I/O error is retried unless the retries are used up. */
  predicate Retried(retries: nat, error: UpgradeError) {
    error.UpgradeIo? && retries + 1 < IO_ERROR_RETRIES
  }

  function RetriesAfter(retries: nat, error: UpgradeError): nat {
    if Retried(retries, error) then retries + 1 else 0
  }

  /** The counter after errors in a row, none of them interrupted by a success. */
  function RetriesAfterAll(retries: nat, errors: seq<UpgradeError>): nat {
    if errors == [] then retries else RetriesAfter(RetriesAfterAll(retries, errors[..|errors| - 1]), errors[|errors| - 1])
  }

  /** Of any three errors in a row at least one is reported and not retried. */
  lemma AtMostTwoRetriesInARow(retries: nat, errors: seq<UpgradeError>, i: nat)
    requires i + 2 < |errors|
    ensures exists j :: i <= j <= i + 2 && !Retried(RetriesAfterAll(retries, errors[..j]), errors[j])
  {
    assert errors[..i + 1][..i] == errors[..i] && errors[..i + 2][..i + 1] == errors[..i + 1];
    var r0, r1, r2 := RetriesAfterAll(retries, errors[..i]), RetriesAfterAll(retries, errors[..i + 1]), RetriesAfterAll(retries, errors[..i + 2]);
    assert r1 == RetriesAfter(r0, errors[i]) && r2 == RetriesAfter(r1, errors[i + 1]);
    assert !Retried(r0, errors[i]) || !Retried(r1, errors[i + 1]) || !Retried(r2, errors[i + 2]);
  }

  function UpgradeFailure(error: UpgradeError): RpcError {
    match error
    case UpgradeTimeout => NegotiationTimeout
    case UpgradeIo => IoError
    case UpgradeUnsupported => UnsupportedProtocol
    case UpgradeOther => OtherError
  }
}
