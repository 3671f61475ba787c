/** The decoder inverts the encoder for any split of the byte stream. */
module CodecRoundTrip {
  import opened Common
  import opened Varint
  import opened Forks
  import opened Codec

  /** The forks come from a configuration whose digests tell phases apart, and the compression is lawful. */
  ghost predicate Ready<T(!new)>(c: Config, s: Setup<T>) {
    Lawful(s.snappy) && c.Sane() && s.forks == NewForks(c) && DigestsTellPhasesApart(s.forks)
  }

  predicate NeedsContext<T>(s: Setup<T>, r: Response<T>) {
    s.hasContext && r.Success?
  }

  /** The phase a response is decoded with. */
  function PhaseFor<T>(c: Config, s: Setup<T>, r: Response<T>): Option<Phase> {
    if NeedsContext(s, r) && s.ssz.epoch(r.body).Some? then Some(c.PhaseAt(s.ssz.epoch(r.body).value)) else None
  }

  /** A response within the limits of the protocol, whose body is valid in the phase of its epoch. */
  ghost predicate Fits<T>(c: Config, s: Setup<T>, r: Response<T>) {
    && |Body(s, r)| <= s.maxPacketSize && |Body(s, r)| < TWO_64
    && match r
       case Success(body) =>
         && s.minLength <= |Body(s, r)| <= s.maxLength
         && (s.hasContext ==> s.ssz.epoch(body).Some? && s.ssz.epoch(body).value < FAR_FUTURE_EPOCH)
         && s.ssz.read(s.ssz.write(body), PhaseFor(c, s, r)) == Some(body)
       case Error(_, message) => |message| <= ERROR_TYPE_MAX
  }

  ghost predicate AllFit<T>(c: Config, s: Setup<T>, rs: seq<Response<T>>) {
    forall i :: 0 <= i < |rs| ==> Fits(c, s, rs[i])
  }

  function Encoding<T>(s: Setup<T>, r: Response<T>): seq<Byte> {
    [r.Code()] + Context(s, r) + Tail(s, r)
  }

  function EncodeAll<T>(s: Setup<T>, rs: seq<Response<T>>): seq<Byte> {
    if rs == [] then [] else Encoding(s, rs[0]) + EncodeAll(s, rs[1..])
  }

  // ----- Receiving -----

  datatype Run<T> = Run(state: State, rest: seq<Byte>, items: seq<Response<T>>, error: Option<CodecError>)

  /** Decodes until more bytes are needed. */
  function Drain<T>(s: Setup<T>, st: State, src: seq<Byte>): Run<T>
    decreases |src|, if st.code.Some? then 1 else 0
  {
    var r := DecodeStep(s, st, src);
    match r.outcome
    case Item(x) => var d := Drain(s, r.state, r.rest); d.(items := [x] + d.items)
    case NeedMore => Run(r.state, r.rest, [], None)
    case Failed(e) => Run(r.state, r.rest, [], Some(e))
  }

  /** Decodes a stream that arrives in chunks. */
  function Receive<T>(s: Setup<T>, st: State, buffer: seq<Byte>, chunks: seq<seq<Byte>>): Run<T>
    decreases |chunks|
  {
    if chunks == [] then Run(st, buffer, [], None)
    else
      var d := Drain(s, st, buffer + chunks[0]);
      if d.error.Some? then d
      else var e := Receive(s, d.state, d.rest, chunks[1..]); e.(items := d.items + e.items)
  }

  function Concat(chunks: seq<seq<Byte>>): seq<Byte> {
    if chunks == [] then [] else chunks[0] + Concat(chunks[1..])
  }

  // ----- Frames -----

  lemma BlocksFit(n: nat)
    ensures CeilDiv(n, 65536) <= n / 65536 + 1 && 65536 * (n / 65536) <= n
  {}

  /** No honest frame is as long as the bound on its size. */
  lemma FrameFits(snappy: Snappy, b: seq<Byte>)
    requires Lawful(snappy)
    ensures |snappy.compress(b)| <= MaxCompressedLength(|b|)
  {
    assert SizeLaw(snappy, b);
    if b != [] {
      BlocksFit(|b|);
      assert 8 * CeilDiv(|b|, 65536) <= 22 + |b| / 6;
    }
  }

  lemma ReadWhole(snappy: Snappy, b: seq<Byte>, rest: seq<Byte>)
    requires Lawful(snappy)
    ensures snappy.read(snappy.compress(b) + rest, |b|) == Done(b, |snappy.compress(b)|)
  {
    assert ReadLaw(snappy, b, rest);
  }

  lemma ReadBroken(snappy: Snappy, b: seq<Byte>, part: seq<Byte>)
    requires Lawful(snappy) && part < snappy.compress(b)
    ensures snappy.read(part, |b|).Eof? && snappy.read(part, |b|).position <= |part|
  {
    assert PartLaw(snappy, b, part);
  }

  /** Reading a frame of which `buf` has arrived. */
  lemma ReadPart(snappy: Snappy, b: seq<Byte>, buf: seq<Byte>, rem: seq<Byte>, more: seq<Byte>)
    requires Lawful(snappy) && buf + rem == snappy.compress(b) + more
    ensures var read := ReadFrame(snappy, buf, |b|);
            if |buf| >= |snappy.compress(b)| then read == Done(b, |snappy.compress(b)|)
            else read.Eof? && read.position < MaxCompressedLength(|b|)
  {
    hide Lawful;
    FrameFits(snappy, b);
    var frame := snappy.compress(b);
    var limited := buf[..Min(|buf|, MaxCompressedLength(|b|))];
    if |buf| >= |frame| {
      assert frame == (buf + rem)[..|frame|] == limited[..|frame|];
      assert limited == frame + limited[|frame|..];
      ReadWhole(snappy, b, limited[|frame|..]);
    } else {
      assert limited == buf == (buf + rem)[..|buf|] == frame[..|buf|];
      ReadBroken(snappy, b, buf);
    }
  }

  // ----- Bodies -----

  /** The rest of a body has arrived as far as `buf`: its length and its frame are still to be read. */
  ghost predicate BodyStep(snappy: Snappy, b: seq<Byte>, st: State, buf: seq<Byte>, rem: seq<Byte>, more: seq<Byte>, r: Step<seq<Byte>>) {
    match r.outcome
    case Item(x) => x == b && r.state == st.(len := None) && r.rest + rem == more
    case NeedMore =>
      && |rem| > |more|
      && (|| (r.state == st && st.len.None? && r.rest == buf && |buf| < |Varint.Encode(|b|)|)
          || (r.state == st.(len := Some(|b|)) && b != [] && r.rest + rem == snappy.compress(b) + more && |r.rest| < |snappy.compress(b)|))
    case Failed(_) => false
  }

  lemma EmptyFrame(snappy: Snappy)
    requires Lawful(snappy)
    ensures snappy.compress([]) == []
  {}

  lemma FrameStep(snappy: Snappy, b: seq<Byte>, lower: nat, upper: nat, st: State, buf: seq<Byte>, rem: seq<Byte>, more: seq<Byte>)
    requires Lawful(snappy) && lower <= |b| <= upper && st.len == Some(|b|) && buf + rem == snappy.compress(b) + more
    ensures BodyStep(snappy, b, st, buf, rem, more, DecodeBody(snappy, lower, upper, st, buf))
  {
    hide Lawful, ReadFrame, MaxCompressedLength;
    ReadPart(snappy, b, buf, rem, more);
    EmptyFrame(snappy);
    var frame := snappy.compress(b);
    assert |buf| + |rem| == |frame| + |more|;
    if |buf| >= |frame| {
      assert buf[|frame|..] + rem == (buf + rem)[|frame|..] == more;
    }
  }

  /** The length has arrived: what follows is as if it had been known before. */
  lemma LengthArrives(snappy: Snappy, lower: nat, upper: nat, st: State, n: nat, rest: seq<Byte>)
    requires st.len == None && n < TWO_64
    ensures DecodeBody(snappy, lower, upper, st, Varint.Encode(n) + rest) == DecodeBody(snappy, lower, upper, st.(len := Some(n)), rest)
  {
    hide Varint.Encode, Varint.Decode, ReadFrame, MaxCompressedLength;
    Varint.RoundTrip(n, rest);
    var src := Varint.Encode(n) + rest;
    assert src[|Varint.Encode(n)|..] == rest;
    assert HandleLength(st, src) == Step(st.(len := Some(n)), rest, Item(n));
  }

  /** The first part of a stream has arrived. */
  lemma Arrived(buf: seq<Byte>, rem: seq<Byte>, first: seq<Byte>, rest: seq<Byte>)
    requires buf + rem == first + rest && |buf| >= |first|
    ensures buf == first + buf[|first|..] && buf[|first|..] + rem == rest
  {
    assert first == (buf + rem)[..|first|] == buf[..|first|];
    assert buf[|first|..] + rem == (buf + rem)[|first|..];
  }

  lemma LengthStep(snappy: Snappy, b: seq<Byte>, lower: nat, upper: nat, st: State, buf: seq<Byte>, rem: seq<Byte>, more: seq<Byte>)
    requires Lawful(snappy) && lower <= |b| <= upper && |b| < TWO_64 && st.len == None
    requires buf + rem == Varint.Encode(|b|) + (snappy.compress(b) + more)
    ensures BodyStep(snappy, b, st, buf, rem, more, DecodeBody(snappy, lower, upper, st, buf))
  {
    hide Lawful, DecodeBody, Varint.Encode;
    var prefix, tail := Varint.Encode(|b|), snappy.compress(b) + more;
    if |buf| >= |prefix| {
      hide BodyStep;
      var rest := buf[|prefix|..];
      Arrived(buf, rem, prefix, tail);
      LengthArrives(snappy, lower, upper, st, |b|, rest);
      FrameStep(snappy, b, lower, upper, st.(len := Some(|b|)), rest, rem, more);
      KnownLength(snappy, b, st, buf, rest, rem, more, DecodeBody(snappy, lower, upper, st, buf));
    } else {
      assert |buf| + |rem| == |prefix| + |tail|;
      LengthIsCut(snappy, lower, upper, st, |b|, buf, rem, tail);
    }
  }

  lemma KnownLength(snappy: Snappy, b: seq<Byte>, st: State, buf: seq<Byte>, rest: seq<Byte>, rem: seq<Byte>, more: seq<Byte>, r: Step<seq<Byte>>)
    requires BodyStep(snappy, b, st.(len := Some(|b|)), rest, rem, more, r) && st.len == None
    ensures BodyStep(snappy, b, st, buf, rem, more, r)
  {}

  lemma LengthIsCut(snappy: Snappy, lower: nat, upper: nat, st: State, n: nat, buf: seq<Byte>, rem: seq<Byte>, more: seq<Byte>)
    requires st.len == None && n < TWO_64 && |buf| < |Varint.Encode(n)| && buf + rem == Varint.Encode(n) + more
    ensures DecodeBody(snappy, lower, upper, st, buf) == Step(st, buf, NeedMore)
  {
    hide Varint.Encode, Varint.DecodeFrom;
    assert buf == (buf + rem)[..|buf|] == Varint.Encode(n)[..|buf|];
    Varint.MaxFits();
    Varint.PartIsInsufficient(n, buf, 0);
  }

  // ----- One response -----

  /** What is still to come of response `r` after its length, its context and its code, when `more` follows it. */
  function AfterLength<T>(s: Setup<T>, r: Response<T>, more: seq<Byte>): seq<Byte> {
    s.snappy.compress(Body(s, r)) + more
  }

  function AfterContext<T>(s: Setup<T>, r: Response<T>, more: seq<Byte>): seq<Byte> {
    Varint.Encode(|Body(s, r)|) + AfterLength(s, r, more)
  }

  function AfterCode<T>(s: Setup<T>, r: Response<T>, more: seq<Byte>): seq<Byte> {
    Context(s, r) + AfterContext(s, r, more)
  }

  /** The decoder is inside response `r`, and `future` is all that it has not read. */
  ghost predicate Inside<T>(c: Config, s: Setup<T>, st: State, future: seq<Byte>, r: Response<T>, more: seq<Byte>) {
    && st.code == Some(r.Code())
    && (|| (NeedsContext(s, r) && st.phase.None? && st.len.None? && future == AfterCode(s, r, more))
        || (AtLength(c, s, st, r) && future == AfterContext(s, r, more))
        || (st.phase == PhaseFor(c, s, r) && Body(s, r) != [] && st.len == Some(|Body(s, r)|) && future == AfterLength(s, r, more)))
  }

  /** The length comes next. Without context bytes, an empty body is never left there. */
  ghost predicate AtLength<T>(c: Config, s: Setup<T>, st: State, r: Response<T>) {
    st.phase == PhaseFor(c, s, r) && st.len.None? && (NeedsContext(s, r) || Body(s, r) != [])
  }

  /** A call inside response `r` gives it if all of it has arrived, and otherwise stays inside it. */
  ghost predicate CodedStep<T>(c: Config, s: Setup<T>, r: Response<T>, rem: seq<Byte>, more: seq<Byte>, step: Step<Response<T>>) {
    match step.outcome
    case Item(x) => x == r && step.state == State(Some(r.Code()), None, None) && step.rest + rem == more
    case NeedMore =>
      && |rem| > |more| && Inside(c, s, step.state, step.rest + rem, r, more)
      && (NeedsContext(s, r) && step.state.phase.None? ==> |step.rest| < CONTEXT_BYTES_LEN)
      && (AtLength(c, s, step.state, r) ==> |step.rest| < |Varint.Encode(|Body(s, r)|)|)
    case Failed(_) => false
  }

  lemma BodyIsCoded<T(!new)>(c: Config, s: Setup<T>, r: Response<T>, st: State, buf: seq<Byte>, rem: seq<Byte>, more: seq<Byte>,
                             b: Step<seq<Byte>>, step: Step<Response<T>>)
    requires Fits(c, s, r) && st.code == Some(r.Code()) && st.phase == PhaseFor(c, s, r)
    requires NeedsContext(s, r) || Body(s, r) != [] || b.outcome.Item?
    requires buf + rem == if st.len.Some? then AfterLength(s, r, more) else AfterContext(s, r, more)
    requires st.len.Some? ==> st.len == Some(|Body(s, r)|)
    requires BodyStep(s.snappy, Body(s, r), st, buf, rem, more, b)
    requires step.rest == b.rest
    requires b.outcome.Item? ==> step.outcome == Item(r) && step.state == State(Some(r.Code()), None, None)
    requires b.outcome.NeedMore? ==> step.outcome.NeedMore? && step.state == b.state
    ensures CodedStep(c, s, r, rem, more, step)
  {
    hide Context, Varint.Encode, Body;
  }

  ghost predicate Reading<T>(c: Config, s: Setup<T>, r: Response<T>, st: State, future: seq<Byte>, more: seq<Byte>) {
    && st.code == Some(r.Code()) && st.phase == PhaseFor(c, s, r)
    && (st.len.Some? ==> st.len == Some(|Body(s, r)|) && Body(s, r) != [])
    && future == if st.len.Some? then AfterLength(s, r, more) else AfterContext(s, r, more)
  }

  lemma ReadingBody<T(!new)>(c: Config, s: Setup<T>, r: Response<T>, st: State, buf: seq<Byte>, rem: seq<Byte>, more: seq<Byte>, lower: nat, upper: nat)
    requires Lawful(s.snappy) && Fits(c, s, r) && Reading(c, s, r, st, buf + rem, more) && lower <= |Body(s, r)| <= upper
    ensures BodyStep(s.snappy, Body(s, r), st, buf, rem, more, DecodeBody(s.snappy, lower, upper, st, buf))
  {
    var b := Body(s, r);
    assert |b| < TWO_64;
    hide Lawful, DecodeBody, BodyStep, Varint.Encode, Fits, PhaseFor;
    if st.len.Some? {
      FrameStep(s.snappy, b, lower, upper, st, buf, rem, more);
    } else {
      LengthStep(s.snappy, b, lower, upper, st, buf, rem, more);
    }
  }

  lemma KindRoundTrip(kind: ErrorKind)
    ensures KindFromByte(kind.AsByte()) == kind && kind.AsByte() != 0
  {}

  lemma PhaseIsKnown<T>(c: Config, s: Setup<T>, r: Response<T>)
    requires Fits(c, s, r)
    ensures s.hasContext && r.Success? <==> PhaseFor(c, s, r).Some?
  {}

  lemma CodedReading<T(!new)>(c: Config, s: Setup<T>, r: Response<T>, st: State, buf: seq<Byte>, rem: seq<Byte>, more: seq<Byte>)
    requires Lawful(s.snappy) && Fits(c, s, r) && Reading(c, s, r, st, buf + rem, more)
    requires NeedsContext(s, r) || Body(s, r) != [] || buf != []
    ensures CodedStep(c, s, r, rem, more, DecodeCoded(s, r.Code(), st, buf))
  {
    hide Lawful, DecodeBody, CodedStep;
    PhaseIsKnown(c, s, r);
    var lower, upper := if r.Success? then s.minLength else 0, if r.Success? then Min(s.maxLength, s.maxPacketSize) else Min(s.maxPacketSize, ERROR_TYPE_MAX);
    ReadingBody(c, s, r, st, buf, rem, more, lower, upper);
    var b := DecodeBody(s.snappy, lower, upper, st, buf);
    if r.Error? {
      KindRoundTrip(r.kind);
    }
    BodyIsCoded(c, s, r, st, buf, rem, more, b, DecodeCoded(s, r.Code(), st, buf));
  }

  lemma ContextIsPhase<T(!new)>(c: Config, s: Setup<T>, r: Response<T>)
    requires Ready(c, s) && Fits(c, s, r) && NeedsContext(s, r)
    ensures |Context(s, r)| == CONTEXT_BYTES_LEN && ForkFromContextBytes(s.forks, Context(s, r)) == PhaseFor(c, s, r)
  {
    hide Lawful, ContextBytes, ForkFromContextBytes, NewForks, DigestsTellPhasesApart;
    PhaseIsRecovered(c, s.ssz.epoch(r.body).value);
  }

  lemma CodedContext<T(!new)>(c: Config, s: Setup<T>, r: Response<T>, st: State, buf: seq<Byte>, rem: seq<Byte>, more: seq<Byte>)
    requires Ready(c, s) && Fits(c, s, r) && NeedsContext(s, r)
    requires st == State(Some(r.Code()), None, None) && buf + rem == AfterCode(s, r, more)
    ensures CodedStep(c, s, r, rem, more, DecodeCoded(s, r.Code(), st, buf))
  {
    hide Lawful, DecodeCoded, Fits, ForkFromContextBytes, PhaseFor, Context, AfterContext, DigestsTellPhasesApart, NewForks;
    ContextIsPhase(c, s, r);
    PhaseIsKnown(c, s, r);
    if |buf| < CONTEXT_BYTES_LEN {
      assert |buf| + |rem| == CONTEXT_BYTES_LEN + |AfterContext(s, r, more)|;
      LongerThanMore(s, r, more);
      ContextIsCut(s, st, buf);
    } else {
      hide CodedStep;
      Arrived(buf, rem, Context(s, r), AfterContext(s, r, more));
      ContextArrives(s, st, buf, PhaseFor(c, s, r));
      CodedReading(c, s, r, st.(phase := PhaseFor(c, s, r)), buf[CONTEXT_BYTES_LEN..], rem, more);
    }
  }

  lemma ContextIsCut<T>(s: Setup<T>, st: State, buf: seq<Byte>)
    requires s.hasContext && st == State(Some(0), None, None) && |buf| < CONTEXT_BYTES_LEN
    ensures DecodeCoded(s, 0, st, buf) == Step(st, buf, NeedMore)
  {}

  /** The context bytes have arrived: what follows is as if the phase had been known before. */
  lemma ContextArrives<T>(s: Setup<T>, st: State, buf: seq<Byte>, phase: Option<Phase>)
    requires s.hasContext && st == State(Some(0), None, None) && |buf| >= CONTEXT_BYTES_LEN && phase.Some?
    requires ForkFromContextBytes(s.forks, buf[..CONTEXT_BYTES_LEN]) == phase
    ensures DecodeCoded(s, 0, st, buf) == DecodeCoded(s, 0, st.(phase := phase), buf[CONTEXT_BYTES_LEN..])
  {
    hide DecodeBody, ForkFromContextBytes;
  }

  lemma LongerThanMore<T>(s: Setup<T>, r: Response<T>, more: seq<Byte>)
    ensures |AfterContext(s, r, more)| > |more|
  {}

  /** A call inside a response. */
  lemma InsideStep<T(!new)>(c: Config, s: Setup<T>, r: Response<T>, st: State, buf: seq<Byte>, rem: seq<Byte>, more: seq<Byte>)
    requires Ready(c, s) && Fits(c, s, r) && Inside(c, s, st, buf + rem, r, more)
    ensures CodedStep(c, s, r, rem, more, DecodeCoded(s, r.Code(), st, buf))
  {
    hide Lawful, Fits, CodedStep, DecodeCoded, AfterCode, AfterContext, AfterLength, PhaseFor, NewForks, DigestsTellPhasesApart;
    hide Body, Config.Sane;
    PhaseIsKnown(c, s, r);
    if NeedsContext(s, r) && st.phase.None? {
      CodedContext(c, s, r, st, buf, rem, more);
    } else {
      CodedReading(c, s, r, st, buf, rem, more);
    }
  }

  // ----- A stream of responses -----

  /** `future` is all that the decoder has not read, and `rs` all that it has not given. */
  ghost predicate At<T>(c: Config, s: Setup<T>, st: State, future: seq<Byte>, rs: seq<Response<T>>) {
    || (st == FRESH && future == EncodeAll(s, rs))
    || (rs != [] && Inside(c, s, st, future, rs[0], EncodeAll(s, rs[1..])))
  }

  lemma EncodingUnfolds<T>(s: Setup<T>, r: Response<T>, more: seq<Byte>)
    ensures Encoding(s, r) + more == [r.Code()] + AfterCode(s, r, more)
  {}

  ghost predicate StreamStep<T>(c: Config, s: Setup<T>, rem: seq<Byte>, rs: seq<Response<T>>, step: Step<Response<T>>) {
    match step.outcome
    case Item(x) => rs != [] && x == rs[0] && step.state == FRESH && step.rest + rem == EncodeAll(s, rs[1..])
    case NeedMore => rs != [] && CodedStep(c, s, rs[0], rem, EncodeAll(s, rs[1..]), step)
    case Failed(_) => false
  }

  lemma ResetStep<T>(c: Config, s: Setup<T>, rem: seq<Byte>, rs: seq<Response<T>>, coded: Step<Response<T>>)
    requires rs != [] && CodedStep(c, s, rs[0], rem, EncodeAll(s, rs[1..]), coded)
    ensures StreamStep(c, s, rem, rs, if coded.outcome.Item? then coded.(state := coded.state.(code := None)) else coded)
  {
    hide Inside, AtLength;
  }

  lemma FirstFits<T>(c: Config, s: Setup<T>, rs: seq<Response<T>>)
    requires AllFit(c, s, rs) && rs != []
    ensures Fits(c, s, rs[0]) && AllFit(c, s, rs[1..])
  {}

  lemma StepFresh<T(!new)>(c: Config, s: Setup<T>, buf: seq<Byte>, rem: seq<Byte>, rs: seq<Response<T>>)
    requires Ready(c, s) && AllFit(c, s, rs) && rs != [] && buf + rem == EncodeAll(s, rs) && |buf| >= 2
    ensures StreamStep(c, s, rem, rs, DecodeStep(s, FRESH, buf))
  {
    hide Ready, AllFit, Fits, CodedStep, DecodeCoded, StreamStep, AfterCode, Encoding;
    var r, more := rs[0], EncodeAll(s, rs[1..]);
    FirstFits(c, s, rs);
    EncodingUnfolds(s, r, more);
    Arrived(buf, rem, [r.Code()], AfterCode(s, r, more));
    FreshCode(c, s, r, buf[1..], rem, more);
    ResetStep(c, s, rem, rs, DecodeCoded(s, r.Code(), FRESH.(code := Some(r.Code())), buf[1..]));
  }

  lemma StepInside<T(!new)>(c: Config, s: Setup<T>, st: State, buf: seq<Byte>, rem: seq<Byte>, rs: seq<Response<T>>)
    requires Ready(c, s) && AllFit(c, s, rs) && rs != [] && Inside(c, s, st, buf + rem, rs[0], EncodeAll(s, rs[1..])) && |buf| >= 2
    ensures StreamStep(c, s, rem, rs, DecodeStep(s, st, buf))
  {
    hide Ready, AllFit, Fits, CodedStep, DecodeCoded, StreamStep, Inside;
    var r, more := rs[0], EncodeAll(s, rs[1..]);
    FirstFits(c, s, rs);
    InsideStep(c, s, r, st, buf, rem, more);
    InsideCode(c, s, st, buf + rem, r, more);
    ResetStep(c, s, rem, rs, DecodeCoded(s, r.Code(), st, buf));
  }

  /** A call with at least two bytes. */
  lemma StepAt<T(!new)>(c: Config, s: Setup<T>, st: State, buf: seq<Byte>, rem: seq<Byte>, rs: seq<Response<T>>)
    requires Ready(c, s) && AllFit(c, s, rs) && At(c, s, st, buf + rem, rs) && |buf| >= 2
    ensures StreamStep(c, s, rem, rs, DecodeStep(s, st, buf))
  {
    hide Ready, AllFit, DecodeStep, StreamStep, Inside;
    assert rs != [];
    if st == FRESH && buf + rem == EncodeAll(s, rs) {
      StepFresh(c, s, buf, rem, rs);
    } else {
      StepInside(c, s, st, buf, rem, rs);
    }
  }

  lemma InsideCode<T>(c: Config, s: Setup<T>, st: State, future: seq<Byte>, r: Response<T>, more: seq<Byte>)
    requires Inside(c, s, st, future, r, more)
    ensures st.code == Some(r.Code()) && st.(code := Some(r.Code())) == st
  {}

  /** The code has been read, and at least one byte follows it. */
  lemma FreshCode<T(!new)>(c: Config, s: Setup<T>, r: Response<T>, buf: seq<Byte>, rem: seq<Byte>, more: seq<Byte>)
    requires Ready(c, s) && Fits(c, s, r) && buf != [] && buf + rem == AfterCode(s, r, more)
    ensures CodedStep(c, s, r, rem, more, DecodeCoded(s, r.Code(), State(Some(r.Code()), None, None), buf))
  {
    hide Lawful, CodedStep, DecodeCoded, AfterContext;
    var st := State(Some(r.Code()), None, None);
    PhaseIsKnown(c, s, r);
    if NeedsContext(s, r) {
      CodedContext(c, s, r, st, buf, rem, more);
    } else {
      assert AfterCode(s, r, more) == AfterContext(s, r, more);
      CodedReading(c, s, r, st, buf, rem, more);
    }
  }

  // ----- The one case in which the decoder waits for ever -----

  /** The last response has context bytes and an empty body. */
  ghost predicate Hollow<T>(s: Setup<T>, rs: seq<Response<T>>) {
    rs != [] && NeedsContext(s, rs[|rs| - 1]) && Body(s, rs[|rs| - 1]) == []
  }

  /** Only the length of an empty last body, a single byte, is still to be read. */
  ghost predicate Stuck<T>(c: Config, s: Setup<T>, st: State, rs: seq<Response<T>>) {
    |rs| == 1 && Hollow(s, rs) && st.code.Some? && AtLength(c, s, st, rs[0])
  }

  lemma EncodingIsLong<T>(c: Config, s: Setup<T>, r: Response<T>)
    ensures |Encoding(s, r)| >= 2
  {}

  lemma HollowIsLong<T(!new)>(c: Config, s: Setup<T>, r: Response<T>, more: seq<Byte>)
    requires Ready(c, s) && Fits(c, s, r) && NeedsContext(s, r)
    ensures |AfterCode(s, r, more)| >= 5 && |Encoding(s, r)| >= 6
  {
    hide Lawful, Fits;
    ContextIsPhase(c, s, r);
  }

  lemma {:induction false} HollowStreamIsLong<T(!new)>(c: Config, s: Setup<T>, rs: seq<Response<T>>)
    requires Ready(c, s) && AllFit(c, s, rs) && Hollow(s, rs)
    ensures |EncodeAll(s, rs)| >= 6
  {
    hide Ready, Fits, AllFit, Encoding;
    FirstFits(c, s, rs);
    if |rs| == 1 {
      HollowIsLong(c, s, rs[0], []);
    } else {
      HollowStreamIsLong(c, s, rs[1..]);
    }
  }

  lemma InsideShort<T(!new)>(c: Config, s: Setup<T>, st: State, future: seq<Byte>, r: Response<T>, more: seq<Byte>)
    requires Ready(c, s) && Fits(c, s, r) && Inside(c, s, st, future, r, more) && |future| <= |more| + 2
    ensures AtLength(c, s, st, r) && Body(s, r) == [] && |future| == |more| + 1 && NeedsContext(s, r)
  {
    hide Fits;
    if NeedsContext(s, r) && st.phase.None? && st.len.None? && future == AfterCode(s, r, more) {
      ContextIsPhase(c, s, r);
      assert false;
    }
    assert SizeLaw(s.snappy, Body(s, r));
  }

  lemma ShortFuture<T(!new)>(c: Config, s: Setup<T>, st: State, future: seq<Byte>, rs: seq<Response<T>>)
    requires Ready(c, s) && AllFit(c, s, rs) && At(c, s, st, future, rs)
    requires |future| <= if Hollow(s, rs) then 2 else 1
    ensures rs == [] || (Stuck(c, s, st, rs) && |future| == 1)
  {
    hide Ready, AllFit, Fits, Encoding, Inside;
    if rs != [] {
      FirstFits(c, s, rs);
      EncodingIsLong(c, s, rs[0]);
      if Hollow(s, rs) { HollowStreamIsLong(c, s, rs); }
      if Hollow(s, rs) && |rs| > 1 { HollowStreamIsLong(c, s, rs[1..]); }
      assert Inside(c, s, st, future, rs[0], EncodeAll(s, rs[1..]));
      InsideLong(c, s, st, future, rs[0], EncodeAll(s, rs[1..]));
      InsideShort(c, s, st, future, rs[0], EncodeAll(s, rs[1..]));
      if |rs| > 1 {
        EncodingIsLong(c, s, rs[1]);
      }
      InsideCode(c, s, st, future, rs[0], EncodeAll(s, rs[1..]));
    }
  }

  lemma InsideLong<T>(c: Config, s: Setup<T>, st: State, future: seq<Byte>, r: Response<T>, more: seq<Byte>)
    requires Inside(c, s, st, future, r, more)
    ensures |future| >= |more|
  {}

  /** The last call of a drain, which asks for more. */
  ghost predicate Ends<T>(c: Config, s: Setup<T>, st: State, rem: seq<Byte>, rs: seq<Response<T>>, d: Run<T>) {
    && d.error.None? && d.items <= rs && At(c, s, d.state, d.rest + rem, rs[|d.items|..])
    && (rem == [] && !Stuck(c, s, st, rs) ==> d.items == rs)
    && (|rem| == 1 && Hollow(s, rs) ==> Stuck(c, s, d.state, rs[|d.items|..]) && d.rest == [])
  }

  lemma EndsShort<T(!new)>(c: Config, s: Setup<T>, st: State, buf: seq<Byte>, rem: seq<Byte>, rs: seq<Response<T>>)
    requires Ready(c, s) && AllFit(c, s, rs) && At(c, s, st, buf + rem, rs) && |buf| <= 1
    ensures Ends(c, s, st, rem, rs, Run(st, buf, [], None))
  {
    hide Ready, AllFit, At, Stuck, Hollow;
    assert rs[0..] == rs;
    if rem == [] || (|rem| == 1 && Hollow(s, rs)) {
      ShortFuture(c, s, st, buf + rem, rs);
    }
    NotHollow(s, rs);
  }

  lemma NotHollow<T>(s: Setup<T>, rs: seq<Response<T>>)
    ensures rs == [] ==> !Hollow(s, rs)
  {}

  lemma HollowStep<T(!new)>(c: Config, s: Setup<T>, r: Response<T>, rem: seq<Byte>, step: Step<Response<T>>)
    requires Ready(c, s) && Fits(c, s, r) && NeedsContext(s, r) && Body(s, r) == [] && |rem| == 1
    requires step.outcome.NeedMore? && CodedStep(c, s, r, rem, [], step)
    ensures AtLength(c, s, step.state, r) && step.state.code.Some? && step.rest == []
  {
    hide Lawful, Fits;
    ContextIsPhase(c, s, r);
    PhaseIsKnown(c, s, r);
    EmptyFrame(s.snappy);
    assert |step.rest + rem| == |step.rest| + 1;
    assert AfterContext(s, r, []) == [0];
  }

  lemma StreamNeedsMore<T>(c: Config, s: Setup<T>, rem: seq<Byte>, rs: seq<Response<T>>, step: Step<Response<T>>)
    requires StreamStep(c, s, rem, rs, step) && step.outcome.NeedMore?
    ensures rs != [] && |rem| > |EncodeAll(s, rs[1..])| && At(c, s, step.state, step.rest + rem, rs)
    ensures CodedStep(c, s, rs[0], rem, EncodeAll(s, rs[1..]), step)
  {
    hide Inside, AtLength;
  }

  lemma EndsLong<T(!new)>(c: Config, s: Setup<T>, st: State, rem: seq<Byte>, rs: seq<Response<T>>, step: Step<Response<T>>)
    requires Ready(c, s) && AllFit(c, s, rs) && StreamStep(c, s, rem, rs, step) && step.outcome.NeedMore?
    ensures Ends(c, s, st, rem, rs, Run(step.state, step.rest, [], None))
  {
    hide Ready, AllFit, At, CodedStep, StreamStep, Encoding, AtLength;
    StreamNeedsMore(c, s, rem, rs, step);
    assert rs[0..] == rs;
    FirstFits(c, s, rs);
    if |rem| == 1 && Hollow(s, rs) {
      if |rs| > 1 {
        EncodingIsLong(c, s, rs[1]);
        assert false;
      }
      HollowStep(c, s, rs[0], rem, step);
    }
  }

  lemma EndsLater<T(!new)>(c: Config, s: Setup<T>, st: State, rem: seq<Byte>, rs: seq<Response<T>>, d: Run<T>)
    requires rs != [] && Ends(c, s, FRESH, rem, rs[1..], d)
    requires |rem| == 1 && Hollow(s, rs) ==> |rs| > 1
    ensures Ends(c, s, st, rem, rs, d.(items := [rs[0]] + d.items))
  {
    hide At;
    var items := [rs[0]] + d.items;
    assert rs == [rs[0]] + rs[1..];
    assert rs[|items|..] == rs[1..][|d.items|..];
  }

  /** Draining gives the responses that have arrived, in order, and never fails on an honest stream. */
  lemma {:induction false} DrainAt<T(!new)>(c: Config, s: Setup<T>, st: State, buf: seq<Byte>, rem: seq<Byte>, rs: seq<Response<T>>)
    requires Ready(c, s) && AllFit(c, s, rs) && At(c, s, st, buf + rem, rs)
    ensures Ends(c, s, st, rem, rs, Drain(s, st, buf))
    decreases |rs|
  {
    hide Ready, AllFit, At, Ends, StreamStep, CodedStep, DecodeCoded;
    var step := DecodeStep(s, st, buf);
    if |buf| <= 1 {
      EndsShort(c, s, st, buf, rem, rs);
    } else {
      StepAt(c, s, st, buf, rem, rs);
      StreamOutcome(c, s, rem, rs, step);
      if step.outcome.NeedMore? {
        EndsLong(c, s, st, rem, rs, step);
      } else {
        FirstFits(c, s, rs);
        DrainAt(c, s, step.state, step.rest, rem, rs[1..]);
        assert |rs| == 1 ==> step.rest + rem == [];
        EndsLater(c, s, st, rem, rs, Drain(s, step.state, step.rest));
      }
    }
  }

  lemma StreamOutcome<T>(c: Config, s: Setup<T>, rem: seq<Byte>, rs: seq<Response<T>>, step: Step<Response<T>>)
    requires StreamStep(c, s, rem, rs, step)
    ensures !step.outcome.Failed?
    ensures step.outcome.Item? ==> rs != [] && step.outcome.value == rs[0] && step.state == FRESH && step.rest + rem == EncodeAll(s, rs[1..])
    ensures step.outcome.Item? ==> At(c, s, step.state, step.rest + rem, rs[1..])
  {
    hide CodedStep;
  }

  // ----- Any split of the stream -----

  /** Some way into the chunks, a single byte is still to come. */
  ghost predicate LoneByte(chunks: seq<seq<Byte>>) {
    exists i :: 0 <= i <= |chunks| && |Concat(chunks[i..])| == 1
  }

  lemma LoneByteLater(chunks: seq<seq<Byte>>)
    requires chunks != [] && LoneByte(chunks[1..])
    ensures LoneByte(chunks)
  {
    var i :| 0 <= i <= |chunks[1..]| && |Concat(chunks[1..][i..])| == 1;
    assert chunks[1..][i..] == chunks[i + 1..];
  }

  lemma StuckIsShort<T(!new)>(c: Config, s: Setup<T>, st: State, future: seq<Byte>, rs: seq<Response<T>>)
    requires Ready(c, s) && AllFit(c, s, rs) && At(c, s, st, future, rs) && Stuck(c, s, st, rs)
    ensures |future| == 1
  {
    hide Lawful;
    PhaseIsKnown(c, s, rs[0]);
    EmptyFrame(s.snappy);
    assert AfterContext(s, rs[0], []) == [0];
  }

  lemma HollowLater<T>(s: Setup<T>, rs: seq<Response<T>>, k: nat)
    requires k < |rs|
    ensures Hollow(s, rs[k..]) <==> Hollow(s, rs)
  {}

  lemma RestFits<T>(c: Config, s: Setup<T>, rs: seq<Response<T>>, k: nat)
    requires k <= |rs| && AllFit(c, s, rs)
    ensures AllFit(c, s, rs[k..])
  {}

  lemma AtEnd<T>(c: Config, s: Setup<T>, st: State, future: seq<Byte>)
    requires At(c, s, st, future, [])
    ensures st == FRESH && future == []
  {}

  /** After a drain that is not the last, the decoder waits for ever only if a single byte is still to come. */
  lemma NotStuckLater<T(!new)>(c: Config, s: Setup<T>, st: State, chunks: seq<seq<Byte>>, rs: seq<Response<T>>, d: Run<T>)
    requires Ready(c, s) && AllFit(c, s, rs) && chunks != [] && !Stuck(c, s, st, rs)
    requires Ends(c, s, st, Concat(chunks[1..]), rs, d) && (Hollow(s, rs) ==> !LoneByte(chunks))
    ensures !Stuck(c, s, d.state, rs[|d.items|..])
    ensures Hollow(s, rs[|d.items|..]) ==> !LoneByte(chunks[1..])
  {
    hide Ready, AllFit, At, AtLength;
    var rest, rem := rs[|d.items|..], Concat(chunks[1..]);
    RestFits(c, s, rs, |d.items|);
    if LoneByte(chunks[1..]) {
      LoneByteLater(chunks);
    }
    if Hollow(s, rest) {
      HollowLater(s, rs, |d.items|);
      assert |rem| != 1;
      if Stuck(c, s, d.state, rest) {
        StuckIsShort(c, s, d.state, d.rest + rem, rest);
        assert false;
      }
    }
  }

  lemma {:induction false} ReceiveAll<T(!new)>(c: Config, s: Setup<T>, st: State, buf: seq<Byte>, chunks: seq<seq<Byte>>, rs: seq<Response<T>>)
    requires Ready(c, s) && AllFit(c, s, rs) && At(c, s, st, buf + Concat(chunks), rs)
    requires !Stuck(c, s, st, rs) && (chunks == [] ==> rs == []) && (Hollow(s, rs) ==> !LoneByte(chunks))
    ensures Receive(s, st, buf, chunks) == Run(FRESH, [], rs, None)
    decreases |chunks|
  {
    hide Ready, AllFit, At, Stuck, Hollow, LoneByte, Drain;
    if chunks == [] {
      AtEnd(c, s, st, buf + []);
      assert buf + [] == buf;
    } else {
      var rem := Concat(chunks[1..]);
      assert buf + chunks[0] + rem == buf + Concat(chunks);
      DrainAt(c, s, st, buf + chunks[0], rem, rs);
      var d := Drain(s, st, buf + chunks[0]);
      NotStuckLater(c, s, st, chunks, rs, d);
      RestFits(c, s, rs, |d.items|);
      ReceiveAll(c, s, d.state, d.rest, chunks[1..], rs[|d.items|..]);
      assert d.items + rs[|d.items|..] == rs;
    }
  }

  lemma {:induction false} StuckStays<T(!new)>(c: Config, s: Setup<T>, st: State, buf: seq<Byte>, chunks: seq<seq<Byte>>)
    requires |buf| + |Concat(chunks)| <= 1
    ensures Receive(s, st, buf, chunks).items == []
    decreases |chunks|
  {
    if chunks != [] {
      assert Drain(s, st, buf + chunks[0]) == Run(st, buf + chunks[0], [], None);
      StuckStays(c, s, st, buf + chunks[0], chunks[1..]);
    }
  }

  lemma {:induction false} ReceiveStuck<T(!new)>(c: Config, s: Setup<T>, st: State, buf: seq<Byte>, chunks: seq<seq<Byte>>, rs: seq<Response<T>>, i: nat)
    requires Ready(c, s) && AllFit(c, s, rs) && At(c, s, st, buf + Concat(chunks), rs) && Hollow(s, rs)
    requires i <= |chunks| && |Concat(chunks[i..])| == 1 && (i == 0 ==> Stuck(c, s, st, rs) && buf == [])
    ensures Receive(s, st, buf, chunks).items != rs
    decreases |chunks|
  {
    hide Ready, AllFit, At, Stuck, Drain, Hollow;
    if i == 0 {
      assert chunks[0..] == chunks;
      StuckStays(c, s, st, buf, chunks);
      NotHollow(s, rs);
    } else {
      var rem := Concat(chunks[1..]);
      assert buf + chunks[0] + rem == buf + Concat(chunks);
      DrainAt(c, s, st, buf + chunks[0], rem, rs);
      var d := Drain(s, st, buf + chunks[0]);
      var rest := rs[|d.items|..];
      assert chunks[1..][i - 1..] == chunks[i..];
      ConcatIsLonger(chunks[1..], i - 1);
      assert rest != [] by {
        if rest == [] { AtEnd(c, s, d.state, d.rest + rem); }
      }
      HollowLater(s, rs, |d.items|);
      RestFits(c, s, rs, |d.items|);
      ReceiveStuck(c, s, d.state, d.rest, chunks[1..], rest, i - 1);
      assert rs == d.items + rest;
    }
  }

  lemma {:induction false} ConcatIsLonger(chunks: seq<seq<Byte>>, i: nat)
    requires i <= |chunks|
    ensures |Concat(chunks)| >= |Concat(chunks[i..])|
  {
    if i > 0 {
      ConcatIsLonger(chunks[1..], i - 1);
      assert chunks[1..][i - 1..] == chunks[i..];
    } else {
      assert chunks[0..] == chunks;
    }
  }

  /**
    However the encodings of responses are cut into chunks, the decoder gives back exactly those responses, with
    nothing left over and its state reset: unless the last one has context bytes and an empty body, and its last
    byte comes alone.
  */
  lemma RoundTripIff<T(!new)>(c: Config, s: Setup<T>, rs: seq<Response<T>>, chunks: seq<seq<Byte>>)
    requires Ready(c, s) && AllFit(c, s, rs) && Concat(chunks) == EncodeAll(s, rs)
    ensures Receive(s, FRESH, [], chunks) == Run(FRESH, [], rs, None) <==> !(Hollow(s, rs) && LoneByte(chunks))
  {
    hide Ready, AllFit, Receive;
    assert [] + Concat(chunks) == EncodeAll(s, rs);
    if Hollow(s, rs) && LoneByte(chunks) {
      var i :| 0 <= i <= |chunks| && |Concat(chunks[i..])| == 1;
      HollowStreamIsLong(c, s, rs);
      assert chunks[0..] == chunks;
      ReceiveStuck(c, s, FRESH, [], chunks, rs, i);
    } else {
      if rs != [] {
        EncodingIsLong(c, s, rs[0]);
      }
      ReceiveAll(c, s, FRESH, [], chunks, rs);
    }
  }

  /** A protocol whose bodies are never empty is decoded for any split. */
  lemma RoundTrip<T(!new)>(c: Config, s: Setup<T>, rs: seq<Response<T>>, chunks: seq<seq<Byte>>)
    requires Ready(c, s) && AllFit(c, s, rs) && Concat(chunks) == EncodeAll(s, rs)
    requires s.hasContext ==> s.minLength > 0
    ensures Receive(s, FRESH, [], chunks) == Run(FRESH, [], rs, None)
  {
    hide Ready, Receive;
    RoundTripIff(c, s, rs, chunks);
    assert rs != [] ==> Fits(c, s, rs[|rs| - 1]);
  }

  /** What fits is encoded, and what was encoded is decoded. */
  lemma EncodedIsDecoded<T(!new)>(c: Config, s: Setup<T>, r: Response<T>, chunks: seq<seq<Byte>>)
    requires Ready(c, s) && Fits(c, s, r)
    ensures EncodeResponse(s, r).Some?
    ensures EncodeResponse(s, r) == Some(Concat(chunks)) && !(Hollow(s, [r]) && LoneByte(chunks))
            ==> Receive(s, FRESH, [], chunks) == Run(FRESH, [], [r], None)
  {
    hide Ready, Receive, LoneByte;
    assert EncodeAll(s, [r]) == Encoding(s, r);
    if Concat(chunks) == EncodeAll(s, [r]) {
      RoundTripIff(c, s, [r], chunks);
    }
  }

  /** A stream has one meaning: no two lists of valid responses have the same encoding. */
  lemma EncodingIsInjective<T(!new)>(c: Config, s: Setup<T>, rs: seq<Response<T>>, rs': seq<Response<T>>)
    requires Ready(c, s) && AllFit(c, s, rs) && AllFit(c, s, rs') && EncodeAll(s, rs) == EncodeAll(s, rs')
    ensures rs == rs'
  {
    hide Ready, AllFit, Receive, Hollow, LoneByte;
    AtOnce(c, s, rs);
    RoundTripIff(c, s, rs, [EncodeAll(s, rs)]);
    AtOnce(c, s, rs');
    RoundTripIff(c, s, rs', [EncodeAll(s, rs)]);
  }

  lemma AtOnce<T>(c: Config, s: Setup<T>, rs: seq<Response<T>>)
    ensures Concat([EncodeAll(s, rs)]) == EncodeAll(s, rs) && !LoneByte([EncodeAll(s, rs)])
  {
    var one := [EncodeAll(s, rs)];
    assert one[1..] == [] && one[0..] == one;
    if rs != [] { EncodingIsLong(c, s, rs[0]); }
  }

  /** A stream cut short gives the first responses and no error: honest bytes are never called malicious. */
  lemma {:induction false} ReceivePart<T(!new)>(c: Config, s: Setup<T>, st: State, buf: seq<Byte>, chunks: seq<seq<Byte>>, rem: seq<Byte>, rs: seq<Response<T>>)
    requires Ready(c, s) && AllFit(c, s, rs) && At(c, s, st, buf + (Concat(chunks) + rem), rs)
    ensures Receive(s, st, buf, chunks).error.None? && Receive(s, st, buf, chunks).items <= rs
    decreases |chunks|
  {
    hide Ready, AllFit, At, Stuck, Hollow, Drain;
    if chunks != [] {
      var more := Concat(chunks[1..]) + rem;
      assert buf + chunks[0] + more == buf + (Concat(chunks) + rem);
      DrainAt(c, s, st, buf + chunks[0], more, rs);
      var d := Drain(s, st, buf + chunks[0]);
      RestFits(c, s, rs, |d.items|);
      ReceivePart(c, s, d.state, d.rest, chunks[1..], rem, rs[|d.items|..]);
      assert d.items + rs[|d.items|..] == rs;
    }
  }

  // ----- The laws can be met -----

  function PlainCompress(b: seq<Byte>): seq<Byte> {
    if b == [] then [] else seq(18, _ => 0) + b
  }

  function PlainRead(src: seq<Byte>, n: nat): FrameRead {
    if n == 0 then Done([], 0) else if |src| >= 18 + n then Done(src[18..18 + n], 18 + n) else Eof(|src|)
  }

  /** Frames that store the bytes as they are meet the laws. */
  lemma PlainIsLawful()
    ensures Lawful(Snappy(PlainCompress, PlainRead))
  {
    var plain := Snappy(PlainCompress, PlainRead);
    forall b: seq<Byte>, rest: seq<Byte>
      ensures ReadLaw(plain, b, rest)
    {
      if b != [] {
        assert (PlainCompress(b) + rest)[18..18 + |b|] == b;
      }
    }
  }

  // ----- The waiting decoder -----

  /** One fork, and a protocol whose only body is empty. */
  function OneFork(): Config {
    Config([0], [], _ => [0, 0, 0, 0])
  }

  function EmptyBodies(): Setup<()> {
    Setup(Snappy(PlainCompress, PlainRead), Ssz(_ => [], (_, _) => Some(()), _ => Some(0)), true, 0, 0, 0, NewForks(OneFork()))
  }

  lemma EmptyBodyFits()
    ensures Ready(OneFork(), EmptyBodies()) && Fits(OneFork(), EmptyBodies(), Success(())) && Hollow(EmptyBodies(), [Success(())])
  {
    PlainIsLawful();
    assert Enabled([0]) == [0] && [0] + [] == [0 as nat] && [0 as nat][..0] == [];
    assert NewForks(OneFork()) == [HardFork(0, 0, [0, 0, 0, 0])];
  }

  /** Its response is never decoded when its last byte comes alone. */
  lemma EmptyBodyIsNotDecoded()
    ensures var s := EmptyBodies(); var bytes := EncodeAll(s, [Success(())]);
            && |bytes| > 1
            && Receive(s, FRESH, [], [bytes[..|bytes| - 1], bytes[|bytes| - 1..]]) != Run(FRESH, [], [Success(())], None)
  {
    hide Ready, Fits, Receive, Hollow, EmptyBodies, Encoding;
    EmptyBodyFits();
    var s, r := EmptyBodies(), Success(());
    var bytes := EncodeAll(s, [r]);
    EncodingIsLong(OneFork(), s, r);
    var chunks: seq<seq<Byte>> := [bytes[..|bytes| - 1], bytes[|bytes| - 1..]];
    assert chunks[1..] == [bytes[|bytes| - 1..]] && |chunks[1..]| == 1;
    assert Concat(chunks[1..]) == bytes[|bytes| - 1..];
    assert Concat(chunks) == bytes;
    assert LoneByte(chunks);
    RoundTripIff(OneFork(), s, [r], chunks);
  }
}
