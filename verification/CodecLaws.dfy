/** What the decoder accepts and refuses, for any bytes: the stream need not come from the encoder. */
module CodecLaws {
  import opened Common
  import opened Varint
  import opened Forks
  import opened Codec
  import opened CodecRoundTrip

  /** The lengths of a success of the protocol, and of an error: at most 256 bytes. */
  predicate Allowed<T>(s: Setup<T>, code: Byte, n: nat) {
    n <= s.maxPacketSize && if code == 0 then s.minLength <= n <= s.maxLength else n <= 256
  }

  // ----- Accepted -----

  ghost predicate ReadFrom<T>(s: Setup<T>, body: T, bytes: seq<Byte>, phase: Option<Phase>) {
    s.minLength <= |bytes| <= s.maxLength && |bytes| <= s.maxPacketSize && s.ssz.read(bytes, phase) == Some(body)
  }

  ghost predicate Legitimate<T>(s: Setup<T>, r: Response<T>) {
    match r
    case Success(body) => exists bytes, phase :: ReadFrom(s, body, bytes, phase)
    case Error(_, message) => |message| <= 256 && |message| <= s.maxPacketSize
  }

  lemma BodyIsAllowed(snappy: Snappy, lower: nat, upper: nat, st: State, src: seq<Byte>)
    requires Lawful(snappy)
    ensures var r := DecodeBody(snappy, lower, upper, st, src); r.outcome.Item? ==> lower <= |r.outcome.value| <= upper
  {
    hide HandleLength, MaxCompressedLength;
    var l := HandleLength(st, src);
    if l.outcome.Item? {
      var n := l.outcome.value;
      assert FillLaw(snappy, l.rest[..Min(|l.rest|, MaxCompressedLength(n))], n);
    }
  }

  /** In any state and for any bytes, a decoded error is short, and a decoded success comes from a body within its bounds. */
  lemma DecodedIsLegitimate<T>(s: Setup<T>, st: State, src: seq<Byte>)
    requires Lawful(s.snappy)
    ensures var r := DecodeStep(s, st, src); r.outcome.Item? ==> Legitimate(s, r.outcome.value)
  {
    hide Lawful, DecodeBody;
    if |src| > 1 {
      var code := if st.code.Some? then st.code.value else src[0];
      var st', src' := st.(code := Some(code)), if st.code.Some? then src else src[1..];
      if code != 0 {
        BodyIsAllowed(s.snappy, 0, Min(s.maxPacketSize, ERROR_TYPE_MAX), st', src');
      } else if DecodeSuccess(s, st', src').outcome.Item? {
        SuccessIsRead(s, st', src');
      }
    }
  }

  lemma SuccessIsRead<T>(s: Setup<T>, st: State, src: seq<Byte>)
    requires Lawful(s.snappy) && DecodeSuccess(s, st, src).outcome.Item?
    ensures exists bytes, phase :: ReadFrom(s, DecodeSuccess(s, st, src).outcome.value, bytes, phase)
  {
    hide Lawful, DecodeBody, ForkFromContextBytes;
    var fork := s.hasContext && st.phase.None?;
    var st' := if fork then st.(phase := ForkFromContextBytes(s.forks, src[..4])) else st;
    var src' := if fork then src[4..] else src;
    BodyIsAllowed(s.snappy, s.minLength, Min(s.maxLength, s.maxPacketSize), st', src');
    var b := DecodeBody(s.snappy, s.minLength, Min(s.maxLength, s.maxPacketSize), st', src');
    assert ReadFrom(s, DecodeSuccess(s, st, src).outcome.value, b.outcome.value, b.state.phase);
  }

  lemma {:induction false} DrainedAreLegitimate<T>(s: Setup<T>, st: State, src: seq<Byte>, i: nat)
    requires Lawful(s.snappy) && i < |Drain(s, st, src).items|
    ensures Legitimate(s, Drain(s, st, src).items[i])
    decreases |src|, if st.code.Some? then 1 else 0
  {
    hide Lawful, Legitimate, DecodeStep;
    DecodedIsLegitimate(s, st, src);
    var r := DecodeStep(s, st, src);
    if i > 0 {
      DrainedAreLegitimate(s, r.state, r.rest, i - 1);
    }
  }

  /** Whatever arrives, however it is cut, every response the decoder gives is within the bounds. */
  lemma {:induction false} ReceivedAreLegitimate<T>(s: Setup<T>, st: State, buf: seq<Byte>, chunks: seq<seq<Byte>>, i: nat)
    requires Lawful(s.snappy) && i < |Receive(s, st, buf, chunks).items|
    ensures Legitimate(s, Receive(s, st, buf, chunks).items[i])
    decreases |chunks|
  {
    hide Lawful, Legitimate, Drain;
    var d := Drain(s, st, buf + chunks[0]);
    if i < |d.items| {
      DrainedAreLegitimate(s, st, buf + chunks[0], i);
    } else {
      ReceivedAreLegitimate(s, d.state, d.rest, chunks[1..], i - |d.items|);
    }
  }

  // ----- Refused -----

  /** The length is known only after the code and the context. */
  predicate Coherent<T>(s: Setup<T>, st: State) {
    st.len.Some? ==> st.code.Some? && (s.hasContext && st.code == Some(0) ==> st.phase.Some?)
  }

  lemma CoherentStays<T>(s: Setup<T>, st: State, src: seq<Byte>)
    requires Coherent(s, st)
    ensures Coherent(s, DecodeStep(s, st, src).state)
  {
    hide DecodeBody, ForkFromContextBytes;
    if |src| > 1 && (st.code == Some(0) || (st.code.None? && src[0] == 0)) {
      var st', src' := st.(code := Some(0)), if st.code.Some? then src else src[1..];
      if s.hasContext && st.phase.None? && |src'| >= 4 {
        BodyOutOfBounds(s.snappy, s.minLength, Min(s.maxLength, s.maxPacketSize), st'.(phase := ForkFromContextBytes(s.forks, src'[..4])), src'[4..]);
      } else {
        BodyOutOfBounds(s.snappy, s.minLength, Min(s.maxLength, s.maxPacketSize), st', src');
      }
    } else if |src| > 1 {
      var code := if st.code.Some? then st.code.value else src[0];
      BodyOutOfBounds(s.snappy, 0, Min(s.maxPacketSize, ERROR_TYPE_MAX), st.(code := Some(code)), if st.code.Some? then src else src[1..]);
    }
  }

  /** A call fails as out of bounds exactly when the length it has read is not allowed. */
  ghost predicate RefusesLengths<T>(s: Setup<T>, code: Byte, r: Step<Response<T>>) {
    r.outcome == Failed(OutOfBounds) <==> r.state.len.Some? && !Allowed(s, code, r.state.len.value)
  }

  lemma OutOfBoundsIff<T>(s: Setup<T>, st: State, src: seq<Byte>)
    requires Coherent(s, st) && |src| > 1
    ensures var code := if st.code.Some? then st.code.value else src[0]; RefusesLengths(s, code, DecodeStep(s, st, src))
  {
    hide DecodeBody, ForkFromContextBytes;
    var code := if st.code.Some? then st.code.value else src[0];
    var st', src' := st.(code := Some(code)), if st.code.Some? then src else src[1..];
    if code != 0 {
      BodyOutOfBounds(s.snappy, 0, Min(s.maxPacketSize, ERROR_TYPE_MAX), st', src');
    } else if !(s.hasContext && st'.phase.None?) {
      BodyOutOfBounds(s.snappy, s.minLength, Min(s.maxLength, s.maxPacketSize), st', src');
    } else if |src'| >= 4 {
      BodyOutOfBounds(s.snappy, s.minLength, Min(s.maxLength, s.maxPacketSize), st'.(phase := ForkFromContextBytes(s.forks, src'[..4])), src'[4..]);
    }
  }

  lemma BodyOutOfBounds(snappy: Snappy, lower: nat, upper: nat, st: State, src: seq<Byte>)
    ensures var r := DecodeBody(snappy, lower, upper, st, src);
            && (r.outcome == Failed(OutOfBounds) <==> r.state.len.Some? && !(lower <= r.state.len.value <= upper))
            && (r.outcome.Item? ==> r.state.len.None?)
  {
    hide Varint.Decode, ReadFrame, MaxCompressedLength;
  }

  /** What becomes of an announced frame that is not decoded; no frame of `n` bytes is longer than the limit. */
  function Refusal<A>(read: FrameRead, n: nat): Outcome<A> {
    match read
    case Eof(position) => if position >= 32 + n + n / 6 then Failed(Malicious) else NeedMore
    case _ => Failed(FrameError)
  }

  lemma BodyIsRefused(snappy: Snappy, lower: nat, upper: nat, st: State, src: seq<Byte>)
    ensures var r := DecodeBody(snappy, lower, upper, st, src);
            && (r.state.len.Some? && lower <= r.state.len.value <= upper ==>
                  var n := r.state.len.value; r.outcome == Refusal(snappy.read(r.rest[..Min(|r.rest|, 32 + n + n / 6)], n), n))
            && (r.outcome == Failed(Malicious) ==> r.state.len.Some? && lower <= r.state.len.value <= upper)
            && (r.outcome.Item? ==> r.state.len.None?)
  {
    hide Varint.Decode;
  }

  /**
    After a call that has read an allowed length and not the frame: the frame was broken, or ended early. An early end is
    malicious when as many bytes were read as any frame has, and otherwise asks for more. Nothing else is malicious.
  */
  ghost predicate RefusesFrames<T>(s: Setup<T>, code: Byte, r: Step<Response<T>>) {
    && (r.state.len.Some? && Allowed(s, code, r.state.len.value) ==>
          var n := r.state.len.value; r.outcome == Refusal(s.snappy.read(r.rest[..Min(|r.rest|, 32 + n + n / 6)], n), n))
    && (r.outcome == Failed(Malicious) ==> r.state.len.Some? && Allowed(s, code, r.state.len.value))
    && (r.outcome.Item? ==> r.state.len.None?)
  }

  lemma ErrorRefuses<T>(s: Setup<T>, code: Byte, st: State, src: seq<Byte>)
    requires code != 0
    ensures RefusesFrames(s, code, DecodeCoded(s, code, st, src))
  {
    hide DecodeBody;
    BodyIsRefused(s.snappy, 0, Min(s.maxPacketSize, ERROR_TYPE_MAX), st, src);
  }

  lemma SuccessRefuses<T>(s: Setup<T>, st: State, src: seq<Byte>)
    requires s.hasContext && st.len.Some? ==> st.phase.Some?
    ensures RefusesFrames(s, 0, DecodeCoded(s, 0, st, src))
  {
    hide DecodeBody, ForkFromContextBytes;
    if !(s.hasContext && st.phase.None?) {
      BodyIsRefused(s.snappy, s.minLength, Min(s.maxLength, s.maxPacketSize), st, src);
    } else if |src| >= 4 {
      BodyIsRefused(s.snappy, s.minLength, Min(s.maxLength, s.maxPacketSize), st.(phase := ForkFromContextBytes(s.forks, src[..4])), src[4..]);
    }
  }

  lemma MaliciousIff<T>(s: Setup<T>, st: State, src: seq<Byte>)
    requires Coherent(s, st) && |src| > 1
    ensures var code := if st.code.Some? then st.code.value else src[0]; RefusesFrames(s, code, DecodeStep(s, st, src))
  {
    hide DecodeCoded;
    var code := if st.code.Some? then st.code.value else src[0];
    var st', src' := st.(code := Some(code)), if st.code.Some? then src else src[1..];
    if code == 0 {
      SuccessRefuses(s, st', src');
    } else {
      ErrorRefuses(s, code, st', src');
    }
  }

  /** A length that is not allowed is on its way: the code, the context and the length are still to come, or the last of these. */
  ghost predicate Doomed<T>(s: Setup<T>, code: Byte, context: seq<Byte>, n: nat, more: seq<Byte>, st: State, future: seq<Byte>) {
    || (st == FRESH && future == [code] + (context + (Encode(n) + more)))
    || (st == State(Some(code), None, None) && future == context + (Encode(n) + more))
    || (st.code == Some(code) && st.len == None && st.phase.Some? && s.hasContext && code == 0 && future == Encode(n) + more)
  }

  /** The context bytes of a known fork where there must be any. */
  ghost predicate Placed<T>(s: Setup<T>, code: Byte, context: seq<Byte>) {
    if s.hasContext && code == 0 then |context| == 4 && ForkFromContextBytes(s.forks, context).Some? else context == []
  }

  ghost predicate StillDoomed<T>(s: Setup<T>, code: Byte, context: seq<Byte>, n: nat, more: seq<Byte>, rem: seq<Byte>, r: Step<Response<T>>) {
    || r.outcome == Failed(OutOfBounds)
    || (&& r.outcome.NeedMore? && Doomed(s, code, context, n, more, r.state, r.rest + rem) && (rem == [] ==> |r.rest| <= 1)
        && (|r.rest| <= 1 || context == [] || r.state.phase.Some? || |r.rest| < 4))
  }

  lemma DoomedBody(snappy: Snappy, lower: nat, upper: nat, st: State, n: nat, more: seq<Byte>, buf: seq<Byte>, rem: seq<Byte>)
    requires st.len == None && n < TWO_64 && !(lower <= n <= upper) && buf + rem == Encode(n) + more
    ensures var r := DecodeBody(snappy, lower, upper, st, buf);
            if |buf| < |Encode(n)| then r == Step(st, buf, NeedMore) else r.outcome == Failed(OutOfBounds)
  {
    hide Varint.Encode, ReadFrame, Varint.Decode;
    if |buf| < |Encode(n)| {
      LengthIsCut(snappy, lower, upper, st, n, buf, rem, more);
    } else {
      Arrived(buf, rem, Encode(n), more);
      LengthArrives(snappy, lower, upper, st, n, buf[|Encode(n)|..]);
    }
  }

  /** The length comes next. */
  lemma DoomedAtLength<T>(s: Setup<T>, code: Byte, context: seq<Byte>, n: nat, more: seq<Byte>, st: State, buf: seq<Byte>, rem: seq<Byte>)
    requires n < TWO_64 && !Allowed(s, code, n) && buf + rem == Encode(n) + more
    requires st.code == Some(code) && st.len == None && if s.hasContext && code == 0 then st.phase.Some? else st.phase.None? && context == []
    ensures var r := DecodeCoded(s, code, st, buf);
            StillDoomed(s, code, context, n, more, rem, r) && (rem == [] ==> r.outcome.Failed?) && (r.outcome.NeedMore? ==> r.rest == buf) && (|rem| > |more| ==> r.outcome.NeedMore?)
  {
    hide DecodeBody, Varint.Encode, ForkFromContextBytes;
    assert [] + (Encode(n) + more) == Encode(n) + more;
    assert |buf| + |rem| == |Encode(n)| + |more|;
    if code == 0 {
      DoomedBody(s.snappy, s.minLength, Min(s.maxLength, s.maxPacketSize), st, n, more, buf, rem);
    } else {
      DoomedBody(s.snappy, 0, Min(s.maxPacketSize, ERROR_TYPE_MAX), st, n, more, buf, rem);
    }
  }

  /** The context comes next. */
  lemma DoomedAtContext<T>(s: Setup<T>, context: seq<Byte>, n: nat, more: seq<Byte>, buf: seq<Byte>, rem: seq<Byte>)
    requires n < TWO_64 && !Allowed(s, 0, n) && s.hasContext && Placed(s, 0, context) && buf + rem == context + (Encode(n) + more)
    ensures var r := DecodeCoded(s, 0, State(Some(0), None, None), buf);
            StillDoomed(s, 0, context, n, more, rem, r) && (rem == [] ==> r.outcome.Failed?) && (|rem| > |more| ==> r.outcome.NeedMore?)
  {
    hide DecodeBody, Varint.Encode, ForkFromContextBytes, StillDoomed;
    var st := State(Some(0), None, None);
    if |buf| < 4 {
      assert DecodeCoded(s, 0, st, buf) == Step(st, buf, NeedMore);
      assert StillDoomed(s, 0, context, n, more, rem, DecodeCoded(s, 0, st, buf)) by { DoomedWaits(s, context, n, more, buf, rem); }
    } else {
      Arrived(buf, rem, context, Encode(n) + more);
      assert buf[..4] == context;
      var st' := st.(phase := ForkFromContextBytes(s.forks, context));
      DoomedAtLength(s, 0, context, n, more, st', buf[4..], rem);
      assert DecodeCoded(s, 0, st, buf) == DecodeCoded(s, 0, st', buf[4..]);
    }
  }

  lemma DoomedWaits<T>(s: Setup<T>, context: seq<Byte>, n: nat, more: seq<Byte>, buf: seq<Byte>, rem: seq<Byte>)
    requires |buf| < 4 <= |context| && buf + rem == context + (Encode(n) + more)
    ensures StillDoomed<T>(s, 0, context, n, more, rem, Step(State(Some(0), None, None), buf, NeedMore))
  {
    assert |buf| + |rem| == |context| + |Encode(n) + more|;
  }

  lemma DoomedStep<T>(s: Setup<T>, code: Byte, context: seq<Byte>, n: nat, more: seq<Byte>, st: State, buf: seq<Byte>, rem: seq<Byte>)
    requires n < TWO_64 && !Allowed(s, code, n) && Placed(s, code, context) && Doomed(s, code, context, n, more, st, buf + rem)
    ensures StillDoomed(s, code, context, n, more, rem, DecodeStep(s, st, buf))
    ensures |buf| > 1 ==> var r := DecodeStep(s, st, buf);
              (rem == [] ==> r.outcome.Failed?) && (context == [] && r.outcome.NeedMore? ==> |r.rest| >= 1)
    ensures |buf| <= 1 ==> DecodeStep(s, st, buf) == Step(st, buf, NeedMore)
    ensures |rem| > |more| ==> DecodeStep(s, st, buf).outcome.NeedMore?
  {
    hide DecodeCoded, Varint.Encode, ForkFromContextBytes;
    if |buf| > 1 {
      var tail := context + (Encode(n) + more);
      if st == FRESH {
        Arrived(buf, rem, [code], tail);
        assert buf[0] == code;
      }
      var st', buf' := st.(code := Some(code)), if st == FRESH then buf[1..] else buf;
      if st'.phase.None? && s.hasContext && code == 0 {
        DoomedAtContext(s, context, n, more, buf', rem);
      } else {
        assert [] + (Encode(n) + more) == Encode(n) + more;
        DoomedAtLength(s, code, context, n, more, st', buf', rem);
      }
    }
  }

  // ----- However it is cut -----

  /** The decoder has seen all there is, and is left with at most one byte, which it does not look at. */
  lemma {:induction false} LeftAlone<T>(s: Setup<T>, st: State, buf: seq<Byte>, chunks: seq<seq<Byte>>)
    requires |buf + Concat(chunks)| <= 1
    ensures Receive(s, st, buf, chunks) == Run(st, buf + Concat(chunks), [], None)
    decreases |chunks|
  {
    if chunks == [] {
      assert buf + [] == buf;
    } else {
      assert buf + chunks[0] + Concat(chunks[1..]) == buf + Concat(chunks);
      LeftAlone(s, st, buf + chunks[0], chunks[1..]);
    }
  }

  /** The last byte is the whole length, and comes after the context. */
  predicate LengthIsLast<T>(s: Setup<T>, code: Byte, n: nat, more: seq<Byte>) {
    s.hasContext && code == 0 && n < 128 && more == []
  }

  lemma AllButLast<T>(s: Setup<T>, code: Byte, context: seq<Byte>, n: nat, more: seq<Byte>, st: State, buf: seq<Byte>, rem: seq<Byte>)
    requires n < TWO_64 && !Allowed(s, code, n) && Placed(s, code, context) && Doomed(s, code, context, n, more, st, buf + rem)
    requires LengthIsLast(s, code, n, more) && |rem| == 1
    ensures var r := DecodeStep(s, st, buf); r.outcome.NeedMore? && r.rest == []
  {
    hide DecodeStep, Allowed, ForkFromContextBytes;
    var r := DecodeStep(s, st, buf);
    DoomedStep(s, code, context, n, more, st, buf, rem);
    assert Encode(n) + more == [n];
  }

  /** It is refused unless the length is last and comes alone. */
  lemma {:induction false} DoomedReceive<T>(s: Setup<T>, code: Byte, context: seq<Byte>, n: nat, more: seq<Byte>, st: State, buf: seq<Byte>, chunks: seq<seq<Byte>>)
    requires n < TWO_64 && !Allowed(s, code, n) && Placed(s, code, context) && Doomed(s, code, context, n, more, st, buf + Concat(chunks))
    requires |buf + Concat(chunks)| > 1 && chunks != [] && !(LengthIsLast(s, code, n, more) && LoneByte(chunks))
    ensures Receive(s, st, buf, chunks).error == Some(OutOfBounds) && Receive(s, st, buf, chunks).items == []
    decreases |chunks|
  {
    hide DecodeStep, Allowed, Placed, Doomed, LengthIsLast;
    var rem := Concat(chunks[1..]);
    var all := buf + chunks[0];
    assert all + rem == buf + Concat(chunks);
    DoomedStep(s, code, context, n, more, st, all, rem);
    var r := DecodeStep(s, st, all);
    if r.outcome.NeedMore? {
      assert rem != [];
      if LoneByte(chunks[1..]) {
        LoneByteLater(chunks);
      }
      if |r.rest + rem| <= 1 {
        assert chunks[1..] == chunks[1..|chunks|] && LoneByte(chunks);
        LastIsLength(s, code, context, n, more, st, all, rem);
      } else {
        DoomedReceive(s, code, context, n, more, r.state, r.rest, chunks[1..]);
      }
    }
  }

  lemma LastIsLength<T>(s: Setup<T>, code: Byte, context: seq<Byte>, n: nat, more: seq<Byte>, st: State, buf: seq<Byte>, rem: seq<Byte>)
    requires n < TWO_64 && !Allowed(s, code, n) && Placed(s, code, context) && Doomed(s, code, context, n, more, st, buf + rem) && |buf + rem| > 1
    requires var r := DecodeStep(s, st, buf); r.outcome.NeedMore? && |r.rest + rem| <= 1
    ensures LengthIsLast(s, code, n, more)
  {
    hide DecodeStep, Allowed, ForkFromContextBytes;
    DoomedStep(s, code, context, n, more, st, buf, rem);
  }

  lemma {:induction false} DoomedWaitsForever<T>(s: Setup<T>, code: Byte, context: seq<Byte>, n: nat, more: seq<Byte>, st: State, buf: seq<Byte>,
                                                chunks: seq<seq<Byte>>, i: nat)
    requires n < TWO_64 && !Allowed(s, code, n) && Placed(s, code, context) && Doomed(s, code, context, n, more, st, buf + Concat(chunks))
    requires LengthIsLast(s, code, n, more) && i <= |chunks| && |Concat(chunks[i..])| == 1 && (i == 0 ==> buf == [])
    ensures Receive(s, st, buf, chunks).error == None && Receive(s, st, buf, chunks).items == []
    decreases |chunks|
  {
    hide DecodeStep, Allowed, Placed, Doomed;
    if i == 0 {
      assert chunks[0..] == chunks && |buf + Concat(chunks)| <= 1;
      LeftAlone(s, st, buf, chunks);
    } else {
      var rem := Concat(chunks[1..]);
      var all := buf + chunks[0];
      assert all + rem == buf + Concat(chunks) && chunks[1..][i - 1..] == chunks[i..];
      ConcatIsLonger(chunks[1..], i - 1);
      DoomedStep(s, code, context, n, more, st, all, rem);
      var r := DecodeStep(s, st, all);
      if i == 1 {
        AllButLast(s, code, context, n, more, st, all, rem);
      }
      DoomedWaitsForever(s, code, context, n, more, r.state, r.rest, chunks[1..], i - 1);
    }
  }

  /**
    A code, the context it needs, and any 64-bit length that is not allowed, is refused as out of bounds: whatever follows,
    and however it is cut. Only a length of one byte after a context, with nothing after it, is not looked at when it comes alone.
  */
  lemma OutOfBoundsIsRefused<T>(s: Setup<T>, code: Byte, context: seq<Byte>, n: nat, more: seq<Byte>, chunks: seq<seq<Byte>>)
    requires n < TWO_64 && !Allowed(s, code, n) && Placed(s, code, context) && Concat(chunks) == [code] + (context + (Encode(n) + more))
    ensures var r := Receive(s, FRESH, [], chunks);
            && r.items == []
            && r.error == if LengthIsLast(s, code, n, more) && LoneByte(chunks) then None else Some(OutOfBounds)
  {
    hide Receive, Allowed, Placed, LengthIsLast;
    assert [] + Concat(chunks) == Concat(chunks);
    if LengthIsLast(s, code, n, more) && LoneByte(chunks) {
      var i :| 0 <= i <= |chunks| && |Concat(chunks[i..])| == 1;
      assert chunks[0..] == chunks;
      DoomedWaitsForever(s, code, context, n, more, FRESH, [], chunks, i);
    } else {
      DoomedReceive(s, code, context, n, more, FRESH, [], chunks);
    }
  }
}
