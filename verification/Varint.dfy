/** Unsigned variable-length integers, as used for length prefixes. */
module Varint {
  type Byte = x: nat | x < 256

  const MAX_BYTES: nat := 10
  const TWO_64: nat := 0x1_0000_0000_0000_0000

  datatype Decoded = Value(n: nat, used: nat) | Insufficient | NotMinimal | Overflow

  /** Seven bits a byte, least significant first; the top bit says that more follows. */
  function Encode(n: nat): (bytes: seq<Byte>)
    ensures |bytes| >= 1
    ensures n < 128 <==> |bytes| == 1
  {
    if n < 128 then [n] else [128 + n % 128] + Encode(n / 128)
  }

  /** Decodes the bytes from position `i` of the prefix on. */
  function DecodeFrom(src: seq<Byte>, i: nat): Decoded
    decreases |src|
  {
    if src == [] then Insufficient
    else if src[0] < 128 then (if src[0] == 0 && i > 0 then NotMinimal else Value(src[0], 1))
    else if i + 1 >= MAX_BYTES then Overflow
    else match DecodeFrom(src[1..], i + 1)
         case Value(n, used) => Value(src[0] - 128 + 128 * n, used + 1)
         case other => other
  }

  /** The shifts are those of a 64-bit word: higher bits are lost. */
  function Decode(src: seq<Byte>): Decoded {
    match DecodeFrom(src, 0)
    case Value(n, used) => Value(n % TWO_64, used)
    case other => other
  }

  function Pow128(k: nat): (p: nat)
    ensures p >= 1
  {
    if k == 0 then 1 else 128 * Pow128(k - 1)
  }

  lemma {:induction false} DecodeFromEncode(n: nat, rest: seq<Byte>, i: nat)
    requires i < MAX_BYTES && n < Pow128(MAX_BYTES - i) && (i > 0 ==> n > 0)
    ensures DecodeFrom(Encode(n) + rest, i) == Value(n, |Encode(n)|)
    decreases n
  {
    var src := Encode(n) + rest;
    if n >= 128 {
      assert src[1..] == Encode(n / 128) + rest;
      assert n < 128 * Pow128(MAX_BYTES - i - 1);
      assert i + 1 < MAX_BYTES by { assert Pow128(0) == 1; }
      DecodeFromEncode(n / 128, rest, i + 1);
    }
  }

  lemma MaxFits()
    ensures TWO_64 <= Pow128(MAX_BYTES)
  {
    assert Pow128(1) == 128 && Pow128(2) == 16384;
    assert Pow128(3) == 128 * Pow128(2) && Pow128(4) == 128 * Pow128(3) && Pow128(5) == 128 * Pow128(4);
    assert Pow128(6) == 128 * Pow128(5) && Pow128(7) == 128 * Pow128(6) && Pow128(8) == 128 * Pow128(7);
    assert Pow128(9) == 128 * Pow128(8) && Pow128(10) == 128 * Pow128(9);
  }

  /** Whatever follows, every 64-bit length is read back from its encoding and exactly its bytes are used. */
  lemma RoundTrip(n: nat, rest: seq<Byte>)
    requires n < TWO_64
    ensures Decode(Encode(n) + rest) == Value(n, |Encode(n)|)
  {
    MaxFits();
    DecodeFromEncode(n, rest, 0);
  }

  /** A part of an encoding is never mistaken for a number or for an error: it asks for more bytes. */
  lemma {:induction false} PartIsInsufficient(n: nat, part: seq<Byte>, i: nat)
    requires i < MAX_BYTES && n < Pow128(MAX_BYTES - i) && part < Encode(n)
    ensures DecodeFrom(part, i) == Insufficient
    decreases n
  {
    if part != [] {
      assert n >= 128 && part[0] == Encode(n)[0];
      assert part[1..] < Encode(n / 128);
      assert n < 128 * Pow128(MAX_BYTES - i - 1);
      assert i + 1 < MAX_BYTES by { assert Pow128(0) == 1; }
      PartIsInsufficient(n / 128, part[1..], i + 1);
    }
  }
}
