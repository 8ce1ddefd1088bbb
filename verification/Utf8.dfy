/** UTF-8 as Go reads and writes it (RFC 3629, section 3): a byte that starts no
    well-formed sequence is read as U+FFFD, one byte wide. */
module Utf8 {

  type Byte = b: int | 0 <= b < 256

  type Rune = int

  const ERROR: Rune := 0xFFFD

  predicate Scalar(r: Rune) { 0 <= r < 0xD800 || 0xE000 <= r <= 0x10FFFF }

  predicate Cont(b: Byte) { 0x80 <= b <= 0xBF }

  // The second byte's range, which shuts out overlong forms, surrogates and the rest.
  predicate Second(b0: Byte, b1: Byte) {
    && (if b0 == 0xE0 then 0xA0 else if b0 == 0xF0 then 0x90 else 0x80) <= b1
    && b1 <= (if b0 == 0xED then 0x9F else if b0 == 0xF4 then 0x8F else 0xBF)
  }

  // The length of the well-formed sequence b starts with; 0 when it starts with none.
  function Width(b: seq<Byte>): (n: nat)
    requires b != []
    ensures n <= |b|
  {
    var b0 := b[0];
    if b0 < 0x80 then 1
    else if 0xC2 <= b0 <= 0xDF && |b| >= 2 && Cont(b[1]) then 2
    else if 0xE0 <= b0 <= 0xEF && |b| >= 3 && Second(b0, b[1]) && Cont(b[2]) then 3
    else if 0xF0 <= b0 <= 0xF4 && |b| >= 4 && Second(b0, b[1]) && Cont(b[2]) && Cont(b[3]) then 4
    else 0
  }

  function Step(b: seq<Byte>): (n: nat)
    requires b != []
    ensures 0 < n <= |b|
  {
    if Width(b) == 0 then 1 else Width(b)
  }

  function DecodeRune(b: seq<Byte>): Rune
    requires b != []
  {
    match Width(b)
    case 1 => b[0]
    case 2 => (b[0] - 0xC0) * 64 + (b[1] - 0x80)
    case 3 => ((b[0] - 0xE0) * 64 + (b[1] - 0x80)) * 64 + (b[2] - 0x80)
    case 4 => (((b[0] - 0xF0) * 64 + (b[1] - 0x80)) * 64 + (b[2] - 0x80)) * 64 + (b[3] - 0x80)
    case _ => ERROR
  }

  function EncodeRune(r: Rune): (b: seq<Byte>)
    ensures b != []
  {
    if !Scalar(r) then [0xEF, 0xBF, 0xBD]
    else if r < 0x80 then [r]
    else if r < 0x800 then [0xC0 + r / 64, 0x80 + r % 64]
    else if r < 0x10000 then [0xE0 + r / 64 / 64, 0x80 + r / 64 % 64, 0x80 + r % 64]
    else [0xF0 + r / 64 / 64 / 64, 0x80 + r / 64 / 64 % 64, 0x80 + r / 64 % 64, 0x80 + r % 64]
  }

  function Decode(b: seq<Byte>): seq<Rune> {
    if b == [] then [] else [DecodeRune(b)] + Decode(b[Step(b)..])
  }

  function Encode(rs: seq<Rune>): seq<Byte> {
    if rs == [] then [] else EncodeRune(rs[0]) + Encode(rs[1..])
  }

  predicate Valid(b: seq<Byte>) { b == [] || (Width(b) != 0 && Valid(b[Width(b)..])) }

  // ---- one rune ----------------------------------------------------------------

  lemma SixBits(high: int, low: int)
    requires 0 <= low < 64
    ensures (high * 64 + low) / 64 == high && (high * 64 + low) % 64 == low
  {
  }

  lemma EncodedWidth(r: Rune)
    requires Scalar(r)
    ensures Width(EncodeRune(r)) == |EncodeRune(r)| && DecodeRune(EncodeRune(r)) == r
  {
    var b := EncodeRune(r);
    if r >= 0x10000 {
      assert 1 <= r / 64 / 64 / 64 * 4 + r / 64 / 64 % 64 / 16;
      assert Second(b[0], b[1]);
    } else if r >= 0x800 {
      assert Second(b[0], b[1]);
    }
  }

  // What follows a well-formed sequence does not change how it reads.
  lemma WidthIsLocal(b: seq<Byte>, rest: seq<Byte>)
    requires b != [] && Width(b) == |b|
    ensures Width(b + rest) == |b| && DecodeRune(b + rest) == DecodeRune(b)
  {
    assert forall i :: 0 <= i < |b| ==> (b + rest)[i] == b[i];
  }

  lemma DecodeEncodedRune(r: Rune, rest: seq<Byte>)
    requires Scalar(r)
    ensures var b := EncodeRune(r) + rest;
            Width(b) == |EncodeRune(r)| && DecodeRune(b) == r && b[Width(b)..] == rest
  {
    EncodedWidth(r);
    WidthIsLocal(EncodeRune(r), rest);
  }

  lemma DecodedIsScalar(b: seq<Byte>)
    requires b != []
    ensures Scalar(DecodeRune(b))
  {
  }

  lemma EncodeDecodedThree(b: seq<Byte>)
    requires b != [] && Width(b) == 3
    ensures EncodeRune(DecodeRune(b)) == b[..3]
  {
    DecodedIsScalar(b);
    var high: int := (b[0] as int - 0xE0) * 64 + (b[1] - 0x80);
    SixBits(high, b[2] - 0x80);
    SixBits(b[0] - 0xE0, b[1] - 0x80);
  }

  lemma EncodeDecodedFour(b: seq<Byte>)
    requires b != [] && Width(b) == 4
    ensures EncodeRune(DecodeRune(b)) == b[..4]
  {
    DecodedIsScalar(b);
    var high: int := (b[0] as int - 0xF0) * 64 + (b[1] - 0x80);
    SixBits(high * 64 + (b[2] - 0x80), b[3] - 0x80);
    SixBits(high, b[2] - 0x80);
    SixBits(b[0] - 0xF0, b[1] - 0x80);
  }

  lemma EncodeDecodedRune(b: seq<Byte>)
    requires b != [] && Width(b) != 0
    ensures EncodeRune(DecodeRune(b)) == b[..Width(b)]
  {
    match Width(b) {
      case 3 => EncodeDecodedThree(b);
      case 4 => EncodeDecodedFour(b);
      case 2 => SixBits(b[0] - 0xC0, b[1] - 0x80);
      case _ =>
    }
  }

  // ---- whole strings --------------------------------------------------------------

  /** Reading back what was written. */
  lemma {:induction false} DecodeEncode(rs: seq<Rune>)
    requires forall i :: 0 <= i < |rs| ==> Scalar(rs[i])
    ensures Valid(Encode(rs)) && Decode(Encode(rs)) == rs
  {
    if rs != [] {
      DecodeEncodedRune(rs[0], Encode(rs[1..]));
      DecodeEncode(rs[1..]);
    }
  }

  lemma {:induction false} EncodeNeverShorter(b: seq<Byte>)
    ensures |Encode(Decode(b))| >= |b|
    ensures !Valid(b) ==> |Encode(Decode(b))| > |b|
    decreases |b|
  {
    if b != [] {
      var rest := b[Step(b)..];
      EncodeNeverShorter(rest);
      assert Decode(b)[1..] == Decode(rest);
      if Width(b) != 0 {
        EncodeDecodedRune(b);
      }
    }
  }

  /** A string survives being read as runes exactly when it is valid: this is why a
      JSON string field can be the value only then. */
  lemma {:induction false} RoundTripIffValid(b: seq<Byte>)
    ensures Encode(Decode(b)) == b <==> Valid(b)
    decreases |b|
  {
    EncodeNeverShorter(b);
    if Valid(b) && b != [] {
      var rest := b[Step(b)..];
      RoundTripIffValid(rest);
      EncodeDecodedRune(b);
      assert Decode(b)[1..] == Decode(rest);
      assert b[..Width(b)] + rest == b;
    }
  }

  lemma {:induction false} DecodeScalars(b: seq<Byte>)
    ensures forall i :: 0 <= i < |Decode(b)| ==> Scalar(Decode(b)[i])
    decreases |b|
  {
    if b != [] {
      DecodedIsScalar(b);
      DecodeScalars(b[Step(b)..]);
    }
  }

  lemma {:induction false} EncodeConcat(a: seq<Rune>, b: seq<Rune>)
    ensures Encode(a + b) == Encode(a) + Encode(b)
  {
    if a == [] {
      assert a + b == b;
    } else {
      assert (a + b)[1..] == a[1..] + b;
      EncodeConcat(a[1..], b);
    }
  }

  /** The first example of section 7 of RFC 3629, a clef for the fourth width, and three
      sequences it calls invalid: an overlong slash, a surrogate, and one past U+10FFFF. */
  lemma Examples()
    ensures EncodeRune(0x41) == [0x41] && EncodeRune(0x391) == [0xCE, 0x91]
    ensures EncodeRune(0x2262) == [0xE2, 0x89, 0xA2] && EncodeRune(0x1D11E) == [0xF0, 0x9D, 0x84, 0x9E]
    ensures !Valid([0xC0, 0xAF]) && !Valid([0xED, 0xA0, 0x80]) && !Valid([0xF4, 0x90, 0x80, 0x80])
    ensures DecodeRune([0xC0, 0xAF]) == 0xFFFD && Step([0xC0, 0xAF]) == 1
  {
  }
}
