/**
  The response codec: a response code, context bytes for some protocols, the uncompressed length, and a snappy frame.
  Snappy and SSZ are foreign: they are parameters, and what is relied on is stated as laws.
*/
module Codec {
  import opened Common
  import opened Varint
  import opened Forks

  const ERROR_TYPE_MAX: nat := 256
  const CONTEXT_BYTES_LEN: nat := 4

  // ----- Responses -----

  datatype ErrorKind = InvalidRequest | ServerError | ResourceUnavailable | RateLimited | BlobsNotFoundForBlock | Unknown {
    function AsByte(): Byte {
      match this
      case InvalidRequest => 1
      case ServerError => 2
      case ResourceUnavailable => 3
      case RateLimited => 139
      case BlobsNotFoundForBlock => 140
      case Unknown => 255
    }
  }

  datatype Response<T> = Success(body: T) | Error(kind: ErrorKind, message: seq<Byte>) {
    function Code(): Byte {
      match this case Success(_) => 0 case Error(kind, _) => kind.AsByte()
    }
  }

  /** Any code other than the known ones is an unknown error. */
  function KindFromByte(code: Byte): (kind: ErrorKind)
    ensures kind.AsByte() == code || (kind.Unknown? && forall k: ErrorKind :: k.AsByte() != code)
  {
    match code
    case 1 => InvalidRequest
    case 2 => ServerError
    case 3 => ResourceUnavailable
    case 139 => RateLimited
    case 140 => BlobsNotFoundForBlock
    case _ => Unknown
  }

  // ----- The foreign encodings -----

  /** Reading `n` uncompressed bytes from a frame: all of them, or the end of the input after `position` bytes, or a bad frame. */
  datatype FrameRead = Done(bytes: seq<Byte>, used: nat) | Eof(position: nat) | BadFrame

  datatype Snappy = Snappy(compress: seq<Byte> -> seq<Byte>, read: (seq<Byte>, nat) -> FrameRead)

  function CeilDiv(n: nat, d: nat): nat
    requires d > 0
  {
    (n + d - 1) / d
  }

  /** A frame has a ten byte header and, for each 65536 bytes, an eight byte header and at most the bytes themselves. */
  ghost predicate SizeLaw(snappy: Snappy, b: seq<Byte>) {
    b != [] ==> 18 <= |snappy.compress(b)| <= 10 + |b| + 8 * CeilDiv(|b|, 65536)
  }

  /** A frame is read back whatever follows it. */
  ghost predicate ReadLaw(snappy: Snappy, b: seq<Byte>, rest: seq<Byte>) {
    snappy.read(snappy.compress(b) + rest, |b|) == Done(b, |snappy.compress(b)|)
  }

  /** A part of a frame is an early end. */
  ghost predicate PartLaw(snappy: Snappy, b: seq<Byte>, part: seq<Byte>) {
    part < snappy.compress(b) ==> snappy.read(part, |b|).Eof? && snappy.read(part, |b|).position <= |part|
  }

  /** Reading fills the buffer, from the bytes there are. */
  ghost predicate FillLaw(snappy: Snappy, src: seq<Byte>, n: nat) {
    snappy.read(src, n).Done? ==> |snappy.read(src, n).bytes| == n && snappy.read(src, n).used <= |src|
  }

  /** The frame of no bytes is empty, and the laws hold of all bytes. */
  ghost predicate Lawful(snappy: Snappy) {
    && snappy.compress([]) == []
    && (forall b: seq<Byte> :: SizeLaw(snappy, b))
    && (forall b: seq<Byte>, rest: seq<Byte> :: ReadLaw(snappy, b, rest))
    && (forall b: seq<Byte>, part: seq<Byte> :: PartLaw(snappy, b, part))
    && (forall src: seq<Byte>, n: nat :: FillLaw(snappy, src, n))
  }

  /** The encoding of response bodies of one protocol. */
  datatype Ssz<!T> = Ssz(write: T -> seq<Byte>, read: (seq<Byte>, Option<Phase>) -> Option<T>, epoch: T -> Option<Epoch>)

  datatype Setup<!T> = Setup(
    snappy: Snappy,
    ssz: Ssz<T>,
    hasContext: bool,
    minLength: nat,
    maxLength: nat,
    maxPacketSize: nat,
    forks: ForkMap)

  /** The bound the decoder puts on the size of a frame. */
  function MaxCompressedLength(n: nat): nat {
    32 + n + n / 6
  }

  // ----- Encoding -----

  function Body<T>(s: Setup<T>, r: Response<T>): seq<Byte> {
    match r case Success(body) => s.ssz.write(body) case Error(_, message) => message
  }

  function Context<T>(s: Setup<T>, r: Response<T>): seq<Byte> {
    if s.hasContext && r.Success? && s.ssz.epoch(r.body).Some?
    then match ContextBytes(s.forks, s.ssz.epoch(r.body).value)
         case Some(d) => d
         case None => []
    else []
  }

  function Tail<T>(s: Setup<T>, r: Response<T>): seq<Byte> {
    Varint.Encode(|Body(s, r)|) + s.snappy.compress(Body(s, r))
  }

  /** None: the body is over the packet size. */
  function EncodeResponse<T>(s: Setup<T>, r: Response<T>): Option<seq<Byte>> {
    if |Body(s, r)| > s.maxPacketSize then None
    else Some([r.Code()] + Context(s, r) + Tail(s, r))
  }

  // ----- Decoding -----

  datatype CodecError = LengthError | OutOfBounds | Malicious | FrameError | UnknownContext | SszError

  datatype State = State(code: Option<Byte>, phase: Option<Phase>, len: Option<nat>)

  const FRESH: State := State(None, None, None)

  datatype Outcome<A> = Item(value: A) | NeedMore | Failed(error: CodecError) {
    function Map<B>(f: A -> B): Outcome<B> {
      match this case Item(a) => Item(f(a)) case NeedMore => NeedMore case Failed(e) => Failed(e)
    }
  }

  /** The state and the unread bytes after a call, and what it returned. */
  datatype Step<A> = Step(state: State, rest: seq<Byte>, outcome: Outcome<A>)

  function HandleLength(st: State, src: seq<Byte>): (r: Step<nat>)
    ensures |r.rest| <= |src| && r.state.code == st.code && r.state.phase == st.phase
  {
    if st.len.Some? then Step(st, src, Item(st.len.value))
    else match Varint.Decode(src)
         case Value(n, used) => Step(st.(len := Some(n)), src[Min(used, |src|)..], Item(n))
         case Insufficient => Step(st, src, NeedMore)
         case _ => Step(st, src, Failed(LengthError))
  }

  function HandleError<A>(read: FrameRead, limit: nat): Outcome<A> {
    if read.Eof? then (if read.position >= limit then Failed(Malicious) else NeedMore)
    else Failed(FrameError)
  }

  /** Reads the frame of an announced length, at most the bound on its size of it. */
  function ReadFrame(snappy: Snappy, src: seq<Byte>, n: nat): FrameRead {
    snappy.read(src[..Min(|src|, MaxCompressedLength(n))], n)
  }

  /** The length, its bounds, and the frame. */
  function DecodeBody(snappy: Snappy, lower: nat, upper: nat, st: State, src: seq<Byte>): (r: Step<seq<Byte>>)
    ensures |r.rest| <= |src| && r.state.code == st.code && r.state.phase == st.phase
  {
    var l := HandleLength(st, src);
    if !l.outcome.Item? then Step(l.state, l.rest, if l.outcome.NeedMore? then NeedMore else Failed(l.outcome.error))
    else
      var n := l.outcome.value;
      if n > upper || n < lower then Step(l.state, l.rest, Failed(OutOfBounds))
      else
        var read := ReadFrame(snappy, l.rest, n);
        if read.Done? then Step(l.state.(len := None), l.rest[Min(read.used, |l.rest|)..], Item(read.bytes))
        else Step(l.state, l.rest, HandleError(read, MaxCompressedLength(n)))
  }

  function DecodeSuccess<T>(s: Setup<T>, st: State, src: seq<Byte>): (r: Step<T>)
    ensures |r.rest| <= |src| && r.state.code == st.code
  {
    if s.hasContext && st.phase.None? && |src| < CONTEXT_BYTES_LEN then Step(st, src, NeedMore)
    else if s.hasContext && st.phase.None? && ForkFromContextBytes(s.forks, src[..CONTEXT_BYTES_LEN]).None? then
      Step(st, src[CONTEXT_BYTES_LEN..], Failed(UnknownContext))
    else
      var (st', src') := if s.hasContext && st.phase.None?
                         then (st.(phase := ForkFromContextBytes(s.forks, src[..CONTEXT_BYTES_LEN])), src[CONTEXT_BYTES_LEN..])
                         else (st, src);
      var b := DecodeBody(s.snappy, s.minLength, Min(s.maxLength, s.maxPacketSize), st', src');
      if b.outcome.Item? then
        var body := s.ssz.read(b.outcome.value, b.state.phase);
        Step(b.state.(phase := None), b.rest, if body.Some? then Item(body.value) else Failed(SszError))
      else Step(b.state, b.rest, if b.outcome.NeedMore? then NeedMore else Failed(b.outcome.error))
  }

  function DecodeError<T>(s: Setup<T>, st: State, src: seq<Byte>): (r: Step<seq<Byte>>)
    ensures |r.rest| <= |src| && r.state.code == st.code
  {
    DecodeBody(s.snappy, 0, Min(s.maxPacketSize, ERROR_TYPE_MAX), st, src)
  }

  /** What follows a response code. */
  function DecodeCoded<T>(s: Setup<T>, code: Byte, st: State, src: seq<Byte>): (r: Step<Response<T>>)
    ensures |r.rest| <= |src| && r.state.code == st.code
  {
    if code == 0
    then var d := DecodeSuccess(s, st, src); Step(d.state, d.rest, d.outcome.Map(b => Success(b)))
    else var d := DecodeError(s, st, src); Step(d.state, d.rest, d.outcome.Map(m => Error(KindFromByte(code), m)))
  }

  /** One call of the decoder. Nothing is done with a single byte. */
  function DecodeStep<T>(s: Setup<T>, st: State, src: seq<Byte>): (r: Step<Response<T>>)
    ensures |r.rest| <= |src|
    ensures r.outcome.Item? ==> r.state.code.None? && (st.code.None? ==> |r.rest| < |src|)
  {
    if |src| <= 1 then Step(st, src, NeedMore)
    else
      var code := if st.code.Some? then st.code.value else src[0];
      var r := DecodeCoded(s, code, st.(code := Some(code)), if st.code.Some? then src else src[1..]);
      if r.outcome.Item? then r.(state := r.state.(code := None)) else r
  }

  // ----- The decoder object -----

  class OutboundCodec<T> {
    const setup: Setup<T>
    var len: Option<nat>
    var phase: Option<Phase>
    var currentResponseCode: Option<Byte>

    constructor (setup: Setup<T>)
      ensures this.setup == setup && Current() == FRESH
    {
      this.setup := setup;
      len, phase, currentResponseCode := None, None, None;
    }

    ghost function Current(): State
      reads this
    {
      State(currentResponseCode, phase, len)
    }

    method ReadLength(src: seq<Byte>) returns (rest: seq<Byte>, r: Outcome<nat>)
      modifies this`len
      ensures Step(Current(), rest, r) == HandleLength(old(Current()), src)
    {
      if len.Some? {
        return src, Item(len.value);
      }
      match Varint.Decode(src)
      case Value(n, used) =>
        len := Some(n);
        return src[Min(used, |src|)..], Item(n);
      case Insufficient => return src, NeedMore;
      case NotMinimal => return src, Failed(LengthError);
      case Overflow => return src, Failed(LengthError);
    }

    method ReadBody(lower: nat, upper: nat, src: seq<Byte>) returns (rest: seq<Byte>, r: Outcome<seq<Byte>>)
      modifies this`len
      ensures Step(Current(), rest, r) == DecodeBody(setup.snappy, lower, upper, old(Current()), src)
    {
      var l;
      rest, l := ReadLength(src);
      match l
      case NeedMore => return rest, NeedMore;
      case Failed(e) => return rest, Failed(e);
      case Item(n) =>
        if n > upper || n < lower {
          return rest, Failed(OutOfBounds);
        }
        var read := ReadFrame(setup.snappy, rest, n);
        if read.Done? {
          len := None;
          return rest[Min(read.used, |rest|)..], Item(read.bytes);
        }
        return rest, HandleError(read, MaxCompressedLength(n));
    }

    method ReadSuccess(src: seq<Byte>) returns (rest: seq<Byte>, r: Outcome<T>)
      modifies this`len, this`phase
      ensures Step(Current(), rest, r) == DecodeSuccess(setup, old(Current()), src)
    {
      rest := src;
      if setup.hasContext && phase.None? {
        if |rest| < CONTEXT_BYTES_LEN {
          return rest, NeedMore;
        }
        var context := rest[..CONTEXT_BYTES_LEN];
        rest := rest[CONTEXT_BYTES_LEN..];
        var found := ForkFromContextBytes(setup.forks, context);
        if found.None? {
          return rest, Failed(UnknownContext);
        }
        phase := found;
      }
      var b;
      rest, b := ReadBody(setup.minLength, Min(setup.maxLength, setup.maxPacketSize), rest);
      match b
      case NeedMore => return rest, NeedMore;
      case Failed(e) => return rest, Failed(e);
      case Item(bytes) =>
        var body := setup.ssz.read(bytes, phase);
        phase := None;
        return rest, if body.Some? then Item(body.value) else Failed(SszError);
    }

    /** What is decoded and how far the state and the buffer move is one step of the specification. */
    method DecodeNext(src: seq<Byte>) returns (rest: seq<Byte>, r: Outcome<Response<T>>)
      modifies this`len, this`phase, this`currentResponseCode
      ensures Step(Current(), rest, r) == DecodeStep(setup, old(Current()), src)
    {
      if |src| <= 1 {
        return src, NeedMore;
      }
      rest := src;
      if currentResponseCode.None? {
        currentResponseCode := Some(rest[0]);
        rest := rest[1..];
      }
      var code := currentResponseCode.value;
      if code == 0 {
        var d;
        rest, d := ReadSuccess(rest);
        r := d.Map(b => Success(b));
      } else {
        var d;
        rest, d := ReadBody(0, Min(setup.maxPacketSize, ERROR_TYPE_MAX), rest);
        r := d.Map(m => Error(KindFromByte(code), m));
      }
      if r.Item? {
        currentResponseCode := None;
      }
    }
  }
}
