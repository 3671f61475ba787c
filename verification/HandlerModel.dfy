/** What the RPC handler keeps per substream, and the rules its bookkeeping obeys. */
module HandlerModel {
  import opened Common

  const MAX_INBOUND_SUBSTREAMS: nat := 32
  const MAX_DIAL_NEGOTIATED: nat := 8
  const IO_ERROR_RETRIES: nat := 3
  const SERVER_ERROR: nat := 2

  type SubstreamId = nat
  type ReqId = nat
  type DelayKey = nat

  /** A response chunk, an error chunk, or the end of the responses. */
  datatype Message = Success(payload: nat) | ErrorResponse(code: nat) | StreamTermination {
    predicate CloseAfter() { !Success? }
  }

  datatype Request = Request(protocol: Protocol, maxResponses: nat)

  predicate ExpectsOne(p: Protocol) {
    p.Status? || p.Ping? || p.MetaData? || p.LightClientBootstrap? ||
    p.LightClientOptimisticUpdate? || p.LightClientFinalityUpdate?
  }

  /** Protocols whose responses end with a stream termination. */
  predicate HasTerminator(p: Protocol) {
    p.BlocksByRange? || p.BlocksByRoot? || p.BlobsByRange? || p.BlobsByRoot? ||
    p.DataColumnsByRoot? || p.DataColumnsByRange?
  }

  /** What `max_responses` can be: one for single responses, none for a goodbye. */
  predicate Sensible(r: Request) {
    (ExpectsOne(r.protocol) ==> r.maxResponses == 1) && (r.protocol.Goodbye? ==> r.maxResponses == 0)
  }

  datatype RpcError =
    | Disconnected | StreamTimeout | IncompleteStream | HandlerRejected | InvalidData
    | ErrorCode(code: nat) | NegotiationTimeout | UnsupportedProtocol | IoError | OtherError

  /** `sub` names the outbound substream an event comes from, if there is one. */
  datatype Event =
    | Received(id: SubstreamId, req: Request)
    | InboundError(id: SubstreamId, error: RpcError)
    | Response(sub: SubstreamId, reqId: ReqId, payload: nat)
    | EndOfStream(sub: SubstreamId, reqId: ReqId)
    | OutboundError(from: Option<SubstreamId>, reqId: ReqId, error: RpcError)
    | Close

  datatype HandlerState = Active | ShuttingDown | Deactivated

  /** State only moves from Active to ShuttingDown to Deactivated. */
  predicate Forward(a: HandlerState, b: HandlerState) {
    a == b || a.Active? || b.Deactivated?
  }

  datatype Dial = Dial(id: ReqId, req: Request)

  datatype PollResult = Pending | Notify(event: Event) | OpenSubstream(dial: Dial)

  // ----- Delay queues -----

  type DelayQueue = map<DelayKey, SubstreamId>

  // ----- Inbound substreams -----

  datatype InboundState = Idle | Busy(message: Message, lastChunk: bool) | Poisoned

  datatype InboundInfo = InboundInfo(
    state: InboundState,
    pendingItems: seq<Message>,
    protocol: Protocol,
    maxRemainingChunks: nat,
    delayKey: Option<DelayKey>)

  ghost predicate AllSuccess(ms: seq<Message>) {
    forall i :: 0 <= i < |ms| ==> ms[i].Success?
  }

  /**
    `taken` are the messages taken for sending so far and `budget` the responses the peer asked for.
    Everything before the message being sent was a plain chunk, and the counter knows how many.
  */
  ghost predicate InboundOk(info: InboundInfo, taken: seq<Message>, queued: seq<Message>, budget: nat) {
    && 1 <= info.maxRemainingChunks <= budget
    && queued == taken + info.pendingItems
    && match info.state
       case Idle => AllSuccess(taken) && |taken| == budget - info.maxRemainingChunks
       case Busy(message, last) =>
         && last == (info.maxRemainingChunks <= 1)
         && |taken| == budget - info.maxRemainingChunks + 1
         && taken[|taken| - 1] == message && AllSuccess(taken[..|taken| - 1])
       case Poisoned => false
  }

  /** What is true of a substream's messages for ever: within the budget, in order, nothing after an error or a termination. */
  ghost predicate InboundHistoryOk(taken: seq<Message>, queued: seq<Message>, budget: nat) {
    && |taken| <= budget
    && taken <= queued
    && (taken != [] ==> AllSuccess(taken[..|taken| - 1]))
  }

  lemma OkHasOkHistory(info: InboundInfo, taken: seq<Message>, queued: seq<Message>, budget: nat)
    requires InboundOk(info, taken, queued, budget)
    ensures InboundHistoryOk(taken, queued, budget)
  {}

  /** Taking the next message for sending. */
  function Take(info: InboundInfo): InboundInfo
    requires info.pendingItems != []
  {
    info.(state := Busy(info.pendingItems[0], info.maxRemainingChunks <= 1), pendingItems := info.pendingItems[1..])
  }

  lemma TakeOk(info: InboundInfo, taken: seq<Message>, queued: seq<Message>, budget: nat)
    requires info.pendingItems != []
    requires InboundOk(info.(state := Idle), taken, queued, budget)
    ensures InboundOk(Take(info), taken + [info.pendingItems[0]], queued, budget)
  {
    assert taken + info.pendingItems == taken + [info.pendingItems[0]] + info.pendingItems[1..];
    assert (taken + [info.pendingItems[0]])[..|taken|] == taken;
  }

  /** A chunk that did not close the substream has been sent. */
  lemma SentOk(info: InboundInfo, taken: seq<Message>, queued: seq<Message>, budget: nat)
    requires InboundOk(info, taken, queued, budget) && info.state.Busy?
    requires info.state.message.Success? && !info.state.lastChunk
    ensures InboundOk(info.(state := Idle, maxRemainingChunks := info.maxRemainingChunks - 1), taken, queued, budget)
  {}

  lemma QueueOk(info: InboundInfo, taken: seq<Message>, queued: seq<Message>, budget: nat, m: Message)
    requires InboundOk(info, taken, queued, budget)
    ensures InboundOk(info.(pendingItems := info.pendingItems + [m]), taken, queued + [m], budget)
  {
    assert taken + info.pendingItems + [m] == taken + (info.pendingItems + [m]);
  }

  // ----- Outbound substreams -----

  datatype OutboundState = RequestPendingResponse(request: Request) | Closing | PoisonedOut

  datatype OutboundInfo = OutboundInfo(
    state: OutboundState,
    delayKey: DelayKey,
    proto: Protocol,
    maxRemainingChunks: Option<nat>,
    reqId: ReqId)

  /** Kinds of events of an outbound substream, in the order they may come. */
  datatype Kind = R | E | End

  function Rank(k: Kind): nat {
    match k case R => 0 case E => 1 case End => 2
  }

  /** The events of outbound substream `s`, as kinds. */
  function Project(es: seq<Event>, s: SubstreamId): seq<Kind> {
    if es == [] then []
    else Project(es[..|es| - 1], s) + KindOf(es[|es| - 1], s)
  }

  function KindOf(e: Event, s: SubstreamId): seq<Kind> {
    match e
    case Response(sub, _, _) => if sub == s then [R] else []
    case EndOfStream(sub, _) => if sub == s then [End] else []
    case OutboundError(from, _, _) => if from == Some(s) then [E] else []
    case _ => []
  }

  /** Events that belong to no outbound substream. */
  predicate Quiet(e: Event) {
    e.Received? || e.InboundError? || (e.OutboundError? && e.from.None?)
  }

  predicate From(e: Event, s: SubstreamId, k: Kind) {
    match k
    case R => e.Response? && e.sub == s
    case E => e.OutboundError? && e.from == Some(s)
    case End => e.EndOfStream? && e.sub == s
  }

  lemma ProjectSnoc(es: seq<Event>, e: Event, s: SubstreamId)
    ensures Project(es + [e], s) == Project(es, s) + KindOf(e, s)
  {
    assert (es + [e])[..|es|] == es;
  }

  lemma {:induction false} ProjectConcat(es: seq<Event>, fs: seq<Event>, s: SubstreamId)
    ensures Project(es + fs, s) == Project(es, s) + Project(fs, s)
    decreases |fs|
  {
    hide KindOf;
    if fs == [] {
      assert es + fs == es;
    } else {
      var init, last := fs[..|fs| - 1], fs[|fs| - 1];
      ProjectConcat(es, init, s);
      assert es + fs == es + init + [last] && fs == init + [last];
      ProjectSnoc(es + init, last, s);
      ProjectSnoc(init, last, s);
    }
  }

  ghost predicate AllQuiet(es: seq<Event>) {
    forall i :: 0 <= i < |es| ==> Quiet(es[i])
  }

  lemma {:induction false} QuietProject(es: seq<Event>, s: SubstreamId)
    requires AllQuiet(es)
    ensures Project(es, s) == []
  {
    if es != [] {
      QuietProject(es[..|es| - 1], s);
    }
  }

  ghost predicate InOrder(log: seq<Kind>) {
    forall i, j :: 0 <= i <= j < |log| ==> Rank(log[i]) <= Rank(log[j])
  }

  function Tally(log: seq<Kind>, k: Kind): nat {
    multiset(log)[k]
  }

  function Limit(r: Request): nat {
    if ExpectsOne(r.protocol) then 1 else r.maxResponses
  }

  /** `late`: the substream was opened after the handler was deactivated, which is itself reported. */
  ghost predicate OutboundOk(info: OutboundInfo, asked: Request, late: bool, log: seq<Kind>) {
    && info.proto == asked.protocol && InOrder(log) && Tally(log, End) == 0
    && match info.state
       case RequestPendingResponse(request) =>
         && request == asked
         && Tally(log, E) == (if late then 1 else 0)
         && (late ==> Tally(log, R) == 0)
         && (if ExpectsOne(asked.protocol) then Tally(log, R) == 0 && info.maxRemainingChunks.None?
             else info.maxRemainingChunks.Some? && info.maxRemainingChunks.value >= 1 &&
                  Tally(log, R) + info.maxRemainingChunks.value == asked.maxResponses)
       case Closing =>
         if late then Tally(log, R) == 0 && Tally(log, E) == 2
         else Tally(log, R) <= Limit(asked) && Tally(log, E) <= 1 && (Tally(log, E) == 0 ==> Tally(log, R) == Limit(asked))
       case PoisonedOut => false
  }

  /**
    Responses within the limit, then errors, then at most one end of stream and nothing after it. The last possible
    error excludes the end of stream. A late substream reports an error first and no response, and two errors before an end.
  */
  ghost predicate OutboundHistoryOk(asked: Request, late: bool, log: seq<Kind>) {
    && InOrder(log)
    && Tally(log, R) <= Limit(asked)
    && Tally(log, E) + Tally(log, End) <= (if late then 3 else 2)
    && Tally(log, End) <= 1
    && (late ==> Tally(log, R) == 0 && Tally(log, E) >= 1 && (Tally(log, End) == 1 ==> Tally(log, E) == 2))
  }

  lemma OutboundOkHasOkHistory(info: OutboundInfo, asked: Request, late: bool, log: seq<Kind>)
    requires OutboundOk(info, asked, late, log)
    ensures OutboundHistoryOk(asked, late, log)
  {}

  lemma TallySnoc(log: seq<Kind>, k: Kind, x: Kind)
    ensures Tally(log + [k], x) == Tally(log, x) + (if x == k then 1 else 0)
  {}

  lemma TallyZero(log: seq<Kind>, k: Kind)
    requires Tally(log, k) == 0
    ensures forall i :: 0 <= i < |log| ==> log[i] != k
  {
    forall i | 0 <= i < |log|
      ensures log[i] != k
    {
      assert log[i] in multiset(log);
    }
  }

  /** Appending a kind of no lower rank than any present keeps the order. */
  lemma InOrderSnoc(log: seq<Kind>, k: Kind)
    requires InOrder(log) && (k == R ==> Tally(log, E) == 0) && (k != End ==> Tally(log, End) == 0)
    ensures InOrder(log + [k])
  {
    if Tally(log, E) == 0 { TallyZero(log, E); }
    if Tally(log, End) == 0 { TallyZero(log, End); }
    assert forall i :: 0 <= i < |log| ==> Rank(log[i]) <= Rank(k);
  }

  lemma Appended(log: seq<Kind>, k: Kind)
    requires InOrder(log) && (k == R ==> Tally(log, E) == 0) && (k != End ==> Tally(log, End) == 0)
    ensures InOrder(log + [k])
    ensures forall x :: Tally(log + [k], x) == Tally(log, x) + (if x == k then 1 else 0)
  {
    InOrderSnoc(log, k);
    forall x
      ensures Tally(log + [k], x) == Tally(log, x) + (if x == k then 1 else 0)
    {
      TallySnoc(log, k, x);
    }
  }

  function NewOutbound(asked: Request, k: DelayKey, reqId: ReqId): OutboundInfo {
    OutboundInfo(RequestPendingResponse(asked), k, asked.protocol,
                 if ExpectsOne(asked.protocol) then None else Some(asked.maxResponses), reqId)
  }

  lemma NewOutboundOk(asked: Request, late: bool, k: DelayKey, reqId: ReqId)
    requires Sensible(asked) && asked.maxResponses > 0
    ensures OutboundOk(NewOutbound(asked, k, reqId), asked, late, if late then [E] else [])
  {
    assert [] + [E] == [E];
    Appended([], E);
  }

  lemma {:induction false} OnlyErrors(log: seq<Kind>)
    requires Tally(log, R) == 0 && Tally(log, End) == 0
    ensures log == seq(Tally(log, E), _ => E)
  {
    if log != [] {
      var init, last := log[..|log| - 1], log[|log| - 1];
      assert log == init + [last];
      TallySnoc(init, last, R);
      TallySnoc(init, last, E);
      TallySnoc(init, last, End);
      OnlyErrors(init);
    }
  }

  /** Exactly one error while a late substream is pending, and exactly two while it closes. */
  lemma LateErrors(info: OutboundInfo, asked: Request, log: seq<Kind>)
    requires OutboundOk(info, asked, true, log)
    ensures log == if info.state.Closing? then [E, E] else [E]
  {
    OnlyErrors(log);
  }

  /** Any open substream can still report a timeout. */
  lemma TimeoutOk(info: OutboundInfo, asked: Request, late: bool, log: seq<Kind>)
    requires OutboundOk(info, asked, late, log) && Sensible(asked) && asked.maxResponses > 0
    ensures OutboundHistoryOk(asked, late, log + [E])
  {
    Appended(log, E);
  }
}
