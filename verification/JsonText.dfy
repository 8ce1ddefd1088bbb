/**
 The fidelity layer of the machine-readable dry run: rewriting dangerous runes in a
 finished JSON document as \u escapes without changing what any decoder reads.

 A document is read as its structural characters and its string literals, each literal
 being a sequence of UTF-16 code units (section 7 of RFC 8259); any JSON parser is a
 function of that reading.
 */
module JsonText {
  import opened Options
  import opened Utf8

  type Text = seq<Rune>

  // ---- reading a document ----------------------------------------------------------

  datatype Token = Mark(c: Rune) | Literal(units: seq<int>)

  function Utf16(r: Rune): seq<int> {
    if r < 0x10000 then [r] else [0xD800 + (r - 0x10000) / 0x400, 0xDC00 + (r - 0x10000) % 0x400]
  }

  function HexValue(c: Rune): Option<int> {
    if '0' as int <= c <= '9' as int then Some(c - '0' as int)
    else if 'a' as int <= c <= 'f' as int then Some(c - 'a' as int + 10)
    else if 'A' as int <= c <= 'F' as int then Some(c - 'A' as int + 10)
    else None
  }

  // The four hex digits of a \u escape.
  function Hex4Value(t: Text): Option<int>
    requires |t| >= 4
  {
    match (HexValue(t[0]), HexValue(t[1]), HexValue(t[2]), HexValue(t[3]))
    case (Some(a), Some(b), Some(c), Some(d)) => Some(((a * 16 + b) * 16 + c) * 16 + d)
    case _ => None
  }

  const QUOTE: Rune := '\"' as int
  const BACKSLASH: Rune := '\\' as int
  const LETTER_U: Rune := 'u' as int

  function ShortEscape(c: Rune): Option<int> {
    if c == QUOTE || c == BACKSLASH || c == '/' as int then Some(c)
    else if c == 'b' as int then Some(8)
    else if c == 'f' as int then Some(12)
    else if c == 'n' as int then Some(10)
    else if c == 'r' as int then Some(13)
    else if c == 't' as int then Some(9)
    else None
  }

  // One character of a string literal: the code units it denotes and its length in the text.
  function CharAt(t: Text): (r: Option<(seq<int>, nat)>)
    ensures r.Some? ==> 0 < r.value.1 <= |t|
  {
    if t == [] || t[0] == QUOTE then None
    else if t[0] != BACKSLASH then
      if t[0] < 0x20 || !Scalar(t[0]) then None else Some((Utf16(t[0]), 1))
    else if |t| < 2 then None
    else if t[1] == LETTER_U then
      if |t| < 6 || Hex4Value(t[2..6]).None? then None else Some(([Hex4Value(t[2..6]).value], 6))
    else if ShortEscape(t[1]).None? then None
    else Some(([ShortEscape(t[1]).value], 2))
  }

  // A string literal after its opening quote: its units, and what follows its closing one.
  function Body(t: Text): (r: Option<(seq<int>, Text)>)
    ensures r.Some? ==> |r.value.1| < |t|
    decreases |t|
  {
    if t != [] && t[0] == QUOTE then Some(([], t[1..]))
    else match CharAt(t)
      case None => None
      case Some((units, n)) =>
        var rest := Body(t[n..]);
        if rest.None? then None else Some((units + rest.value.0, rest.value.1))
  }

  // Outside a literal a document holds printable ASCII and its four kinds of white space.
  predicate Structural(c: Rune) { 0x20 <= c <= 0x7E || c == 9 || c == 10 || c == 13 }

  function Lex(t: Text): Option<seq<Token>>
    decreases |t|
  {
    if t == [] then Some([])
    else if t[0] == QUOTE then
      var body := Body(t[1..]);
      if body.None? then None
      else
        var rest := Lex(body.value.1);
        if rest.None? then None else Some([Literal(body.value.0)] + rest.value)
    else if !Structural(t[0]) then None
    else
      var rest := Lex(t[1..]);
      if rest.None? then None else Some([Mark(t[0])] + rest.value)
  }

  /** The reading of section 7 of RFC 8259 at its escapes: the eight short ones, four hex digits
      of either case, and the G clef, which is one rune raw and two units escaped. */
  lemma EscapesOfTheGrammar()
    ensures forall c :: ShortEscape(c).Some? <==> c in {0x22, 0x5C, 0x2F, 0x62, 0x66, 0x6E, 0x72, 0x74}
    ensures ShortEscape(0x22) == Some(0x22) && ShortEscape(0x5C) == Some(0x5C) && ShortEscape(0x2F) == Some(0x2F)
    ensures ShortEscape(0x62) == Some(8) && ShortEscape(0x66) == Some(0xC)
    ensures ShortEscape(0x6E) == Some(0xA) && ShortEscape(0x72) == Some(0xD) && ShortEscape(0x74) == Some(9)
    ensures forall n :: 0 <= n < 10 ==> HexValue(0x30 + n) == Some(n)
    ensures forall n :: 10 <= n < 16 ==> HexValue(0x61 + n - 10) == Some(n) && HexValue(0x41 + n - 10) == Some(n)
    ensures Utf16(0x1D11E) == [0xD834, 0xDD1E]
  {
  }

  // The four digits after a \u, the first the highest.
  lemma FourDigits(t: Text)
    requires |t| >= 6 && t[0] == 0x5C && t[1] == 0x75
    requires HexValue(t[2]).Some? && HexValue(t[3]).Some? && HexValue(t[4]).Some? && HexValue(t[5]).Some?
    ensures CharAt(t) ==
              Some(([HexValue(t[2]).value * 0x1000 + HexValue(t[3]).value * 0x100
                     + HexValue(t[4]).value * 0x10 + HexValue(t[5]).value], 6))
  {
  }

  // ---- the rewriting ----------------------------------------------------------------

  // A rune encoding/json left raw; the set of hazards is the screens' own.
  predicate Raw(forging: Rune -> bool, r: Rune) { r >= 0x20 && forging(r) }

  ghost predicate Sane(forging: Rune -> bool) { forall r :: 0x20 <= r <= 0x7E ==> !forging(r) }

  function HexDigit(n: int): Rune
    requires 0 <= n < 16
  {
    if n < 10 then '0' as int + n else 'a' as int + n - 10
  }

  function Escape16(unit: int): Text
    requires 0 <= unit < 0x10000
  {
    [BACKSLASH, LETTER_U, HexDigit(unit / 16 / 16 / 16), HexDigit(unit / 16 / 16 % 16),
     HexDigit(unit / 16 % 16), HexDigit(unit % 16)]
  }

  function EscapeRune(r: Rune): Text
    requires Scalar(r)
  {
    var units := Utf16(r);
    if |units| == 1 then Escape16(units[0]) else Escape16(units[0]) + Escape16(units[1])
  }

  ghost predicate Scalars(t: Text) { forall i :: 0 <= i < |t| ==> Scalar(t[i]) }

  function Escaped(forging: Rune -> bool, t: Text): Text
    requires forall i :: 0 <= i < |t| ==> Scalar(t[i])
  {
    if t == [] then []
    else (if Raw(forging, t[0]) then EscapeRune(t[0]) else [t[0]]) + Escaped(forging, t[1..])
  }

  predicate Clean(forging: Rune -> bool, t: Text) { forall i :: 0 <= i < |t| ==> !Raw(forging, t[i]) }

  // ---- it reads the same --------------------------------------------------------------

  lemma HexDigitReads(n: int)
    requires 0 <= n < 16
    ensures HexValue(HexDigit(n)) == Some(n) && 0x20 <= HexDigit(n) <= 0x7E
  {
  }

  lemma EscapeReads(unit: int, rest: Text)
    requires 0 <= unit < 0x10000
    ensures var t := Escape16(unit) + rest;
            CharAt(t) == Some(([unit], 6)) && t[6..] == rest
  {
    var t := Escape16(unit) + rest;
    HexDigitReads(unit / 16 / 16 / 16);
    HexDigitReads(unit / 16 / 16 % 16);
    HexDigitReads(unit / 16 % 16);
    HexDigitReads(unit % 16);
    assert t[2..6] == Escape16(unit)[2..6];
  }

  lemma EscapeInBody(unit: int, rest: Text)
    requires 0 <= unit < 0x10000 && Body(rest).Some?
    ensures Body(Escape16(unit) + rest) == Some(([unit] + Body(rest).value.0, Body(rest).value.1))
  {
    EscapeReads(unit, rest);
  }

  lemma PairInBody(high: int, low: int, rest: Text)
    requires 0 <= high < 0x10000 && 0 <= low < 0x10000 && Body(rest).Some?
    ensures Body((Escape16(high) + Escape16(low)) + rest) ==
              Some(([high, low] + Body(rest).value.0, Body(rest).value.1))
  {
    var second := Escape16(low) + rest;
    EscapeInBody(low, rest);
    EscapeInBody(high, second);
    Associates(Escape16(high), Escape16(low), rest);
    PairFirst(high, low, Body(rest).value.0);
  }

  lemma Associates(a: Text, b: Text, c: Text)
    ensures (a + b) + c == a + (b + c)
  {
  }

  lemma PairFirst(high: int, low: int, rest: seq<int>)
    ensures [high] + ([low] + rest) == [high, low] + rest
  {
  }

  // One escape stands for one code unit, and two for a pair.
  lemma EscapedRuneReads(r: Rune, rest: Text)
    requires Scalar(r) && Body(rest).Some?
    ensures Body(EscapeRune(r) + rest) == Some((Utf16(r) + Body(rest).value.0, Body(rest).value.1))
  {
    if r < 0x10000 {
      EscapeInBody(r, rest);
    } else {
      PairInBody(Utf16(r)[0], Utf16(r)[1], rest);
    }
  }

  // Runes that are not hazards stand as they are.
  lemma {:induction false} EscapedSkips(forging: Rune -> bool, t: Text, n: nat)
    requires Scalars(t) && n <= |t| && forall i :: 0 <= i < n ==> !Raw(forging, t[i])
    ensures Escaped(forging, t) == t[..n] + Escaped(forging, t[n..])
  {
    if n > 0 {
      EscapedSkips(forging, t[1..], n - 1);
      assert t[1..][n - 1..] == t[n..];
      assert t[..n] == [t[0]] + t[1..][..n - 1];
    }
  }

  lemma CharIsPlain(forging: Rune -> bool, t: Text, i: nat)
    requires Sane(forging) && CharAt(t).Some? && i < CharAt(t).value.1
    requires t[0] == BACKSLASH || !Raw(forging, t[0])
    ensures !Raw(forging, t[i])
  {
    if t[0] == BACKSLASH && i >= 2 {
      assert t[i] == t[2..6][i - 2];
      assert HexValue(t[i]).Some?;
    }
  }

  lemma CharIsLocal(t: Text, n: nat, rest: Text)
    requires CharAt(t).Some? && n == CharAt(t).value.1
    ensures CharAt(t[..n] + rest) == CharAt(t)
  {
    var u := t[..n] + rest;
    if n == 6 {
      assert u[2..6] == t[2..6];
    }
  }

  lemma {:induction false} EscapedBody(forging: Rune -> bool, t: Text)
    requires Sane(forging) && Scalars(t) && Body(t).Some?
    ensures Scalars(Body(t).value.1)
    ensures Body(Escaped(forging, t)) == Some((Body(t).value.0, Escaped(forging, Body(t).value.1)))
    decreases |t|
  {
    if t[0] == QUOTE {
      EscapedSkips(forging, t, 1);
    } else {
      var n := CharAt(t).value.1;
      var rest := Escaped(forging, t[n..]);
      EscapedBody(forging, t[n..]);
      if t[0] != BACKSLASH && Raw(forging, t[0]) {
        EscapedRuneReads(t[0], rest);
      } else {
        forall i | 0 <= i < n ensures !Raw(forging, t[i]) { CharIsPlain(forging, t, i); }
        EscapedSkips(forging, t, n);
        CharIsLocal(t, n, rest);
        assert (t[..n] + rest)[n..] == rest;
      }
    }
  }

  /** MEANING IS KEPT.  A document that reads as a token sequence reads as the very same
      one after the rewriting: every literal denotes the same code units, lone surrogate
      escapes and non-BMP runes included. */
  lemma {:induction false} EscapedReadsTheSame(forging: Rune -> bool, t: Text)
    requires Sane(forging) && Scalars(t) && Lex(t).Some?
    ensures Lex(Escaped(forging, t)) == Lex(t)
    decreases |t|
  {
    if t != [] {
      EscapedSkips(forging, t, 1);
      if t[0] == QUOTE {
        EscapedBody(forging, t[1..]);
        EscapedReadsTheSame(forging, Body(t[1..]).value.1);
        assert Escaped(forging, t)[1..] == Escaped(forging, t[1..]);
      } else {
        EscapedReadsTheSame(forging, t[1..]);
        assert Escaped(forging, t)[1..] == Escaped(forging, t[1..]);
      }
    }
  }

  // ---- and it is clean ----------------------------------------------------------------

  lemma EscapeRuneIsAscii(r: Rune, i: nat)
    requires Scalar(r) && i < |EscapeRune(r)|
    ensures 0x20 <= EscapeRune(r)[i] <= 0x7E
  {
  }

  lemma {:induction false} EscapedIsClean(forging: Rune -> bool, t: Text)
    requires Sane(forging) && Scalars(t)
    ensures Clean(forging, Escaped(forging, t)) && Scalars(Escaped(forging, t))
  {
    if t != [] {
      EscapedIsClean(forging, t[1..]);
      if Raw(forging, t[0]) {
        forall i | 0 <= i < |EscapeRune(t[0])|
          ensures !Raw(forging, EscapeRune(t[0])[i]) && Scalar(EscapeRune(t[0])[i])
        {
          EscapeRuneIsAscii(t[0], i);
        }
      }
    }
  }

  lemma {:induction false} CleanIsFixed(forging: Rune -> bool, t: Text)
    requires Scalars(t) && Clean(forging, t)
    ensures Escaped(forging, t) == t
  {
    EscapedSkips(forging, t, |t|);
  }

  // ---- decoders that read runes -----------------------------------------------------------

  predicate High(u: int) { 0xD800 <= u < 0xDC00 }

  predicate Low(u: int) { 0xDC00 <= u < 0xE000 }

  // utf16.Decode: a surrogate without its partner reads as U+FFFD.
  function Runes(units: seq<int>): seq<Rune>
    decreases |units|
  {
    if units == [] then []
    else if High(units[0]) && |units| >= 2 && Low(units[1]) then
      [0x10000 + (units[0] - 0xD800) * 0x400 + (units[1] - 0xDC00)] + Runes(units[2..])
    else [if High(units[0]) || Low(units[0]) then ERROR else units[0]] + Runes(units[1..])
  }

  predicate UnicodeEscape(t: Text) {
    |t| >= 6 && t[0] == BACKSLASH && t[1] == LETTER_U && Hex4Value(t[2..6]).Some?
  }

  predicate PairAt(t: Text) {
    && UnicodeEscape(t) && High(Hex4Value(t[2..6]).value)
    && UnicodeEscape(t[6..]) && Low(Hex4Value(t[6..][2..6]).value)
  }

  // One step of encoding/json's unquote: a raw rune is kept, and a high surrogate's
  // escape looks ahead for its partner's escape.
  function GoChar(t: Text): (r: Option<(Rune, nat)>)
    ensures r.Some? ==> 0 < r.value.1 <= |t|
  {
    match CharAt(t)
    case None => None
    case Some((units, n)) =>
      if t[0] != BACKSLASH then Some((t[0], 1))
      else if PairAt(t) then
        Some((0x10000 + (units[0] - 0xD800) * 0x400 + (Hex4Value(t[6..][2..6]).value - 0xDC00), 12))
      else Some((if High(units[0]) || Low(units[0]) then ERROR else units[0], n))
  }

  function GoBody(t: Text): Option<(seq<Rune>, Text)>
    decreases |t|
  {
    if t != [] && t[0] == QUOTE then Some(([], t[1..]))
    else match GoChar(t)
      case None => None
      case Some((r, n)) =>
        var rest := GoBody(t[n..]);
        if rest.None? then None else Some(([r] + rest.value.0, rest.value.1))
  }

  // A literal's units start with a low surrogate only where its text starts with that escape.
  lemma LeadingLow(t: Text)
    requires Body(t).Some? && Body(t).value.0 != [] && Low(Body(t).value.0[0])
    ensures UnicodeEscape(t) && Hex4Value(t[2..6]).value == Body(t).value.0[0]
  {
  }

  lemma RunesOne(u: int, rest: seq<int>)
    requires !(High(u) && rest != [] && Low(rest[0]))
    ensures Runes([u] + rest) == [if High(u) || Low(u) then ERROR else u] + Runes(rest)
  {
    assert ([u] + rest)[1..] == rest;
  }

  lemma RunesPair(h: int, l: int, rest: seq<int>)
    requires High(h) && Low(l)
    ensures Runes([h, l] + rest) == [0x10000 + (h - 0xD800) * 0x400 + (l - 0xDC00)] + Runes(rest)
  {
    assert ([h, l] + rest)[2..] == rest;
  }

  lemma RawRuneRuns(r: Rune, rest: seq<int>)
    requires Scalar(r)
    ensures Runes(Utf16(r) + rest) == [r] + Runes(rest)
  {
    if r < 0x10000 {
      RunesOne(r, rest);
    } else {
      RunesPair(Utf16(r)[0], Utf16(r)[1], rest);
    }
  }

  // A pair of escapes, and what follows it.
  lemma EscapedPair(t: Text)
    requires Body(t).Some? && UnicodeEscape(t) && UnicodeEscape(t[6..])
    ensures Body(t[12..]).Some? && Body(t).value.1 == Body(t[12..]).value.1
    ensures Body(t).value.0 ==
              [Hex4Value(t[2..6]).value, Hex4Value(t[6..][2..6]).value] + Body(t[12..]).value.0
  {
    assert t[6..][6..] == t[12..];
    assert Body(t).value.0 == [Hex4Value(t[2..6]).value] + Body(t[6..]).value.0;
    assert Body(t[6..]).value.0 == [Hex4Value(t[6..][2..6]).value] + Body(t[12..]).value.0;
  }

  // What follows an escape that starts no pair does not complete one.
  lemma NoPartner(t: Text)
    requires Body(t).Some? && t[0] == BACKSLASH && !PairAt(t)
    ensures var (units, n) := CharAt(t).value;
            var rest := Body(t[n..]).value.0;
            |units| == 1 && !(High(units[0]) && rest != [] && Low(rest[0]))
  {
    var n := CharAt(t).value.1;
    var rest := Body(t[n..]).value.0;
    if rest != [] && Low(rest[0]) {
      LeadingLow(t[n..]);
    }
  }

  lemma OneAt(t: Text)
    requires Body(t).Some? && t[0] == BACKSLASH && !PairAt(t)
    ensures var n := CharAt(t).value.1;
            var u := CharAt(t).value.0[0];
            && Body(t).value.0 == [u] + Body(t[n..]).value.0
            && Runes(Body(t).value.0) == [if High(u) || Low(u) then ERROR else u] + Runes(Body(t[n..]).value.0)
  {
    var (units, n) := CharAt(t).value;
    NoPartner(t);
    assert units == [units[0]];
    RunesOne(units[0], Body(t[n..]).value.0);
  }

  // What one step reads is what its units decode to.
  ghost predicate GoCharFits(t: Text)
    requires Body(t).Some?
  {
    && GoChar(t).Some? && Body(t[GoChar(t).value.1..]).Some?
    && var (r, n) := GoChar(t).value;
       && Body(t).value.1 == Body(t[n..]).value.1
       && Runes(Body(t).value.0) == [r] + Runes(Body(t[n..]).value.0)
  }

  lemma RawFits(t: Text)
    requires Body(t).Some? && t[0] != QUOTE && t[0] != BACKSLASH
    ensures GoCharFits(t)
  {
    RawRuneRuns(t[0], Body(t[1..]).value.0);
  }

  lemma PairFits(t: Text)
    requires Body(t).Some? && PairAt(t)
    ensures GoCharFits(t)
  {
    EscapedPair(t);
    RunesPair(Hex4Value(t[2..6]).value, Hex4Value(t[6..][2..6]).value, Body(t[12..]).value.0);
  }

  lemma OneFits(t: Text)
    requires Body(t).Some? && t[0] == BACKSLASH && !PairAt(t)
    ensures GoCharFits(t)
  {
    OneAt(t);
  }

  /** Go's decoder, which never sees code units, reads exactly the runes they decode to;
      so whatever keeps the units keeps what it reads. */
  lemma {:induction false} GoReadsTheUnits(t: Text)
    requires Body(t).Some?
    ensures GoBody(t) == Some((Runes(Body(t).value.0), Body(t).value.1))
    decreases |t|
  {
    if t[0] != QUOTE {
      if t[0] != BACKSLASH {
        RawFits(t);
      } else if PairAt(t) {
        PairFits(t);
      } else {
        OneFits(t);
      }
      GoReadsTheUnits(t[GoChar(t).value.1..]);
    }
  }

  // ---- the document as bytes -----------------------------------------------------------------

  ghost predicate IsDocument(b: seq<Byte>) { Valid(b) && Lex(Decode(b)).Some? }

  function EscapedBytes(forging: Rune -> bool, b: seq<Byte>): seq<Byte> {
    DecodeScalars(b);
    Encode(Escaped(forging, Decode(b)))
  }

  /** escapeRawForgingRunes on what encoding/json wrote.  The result is a document again,
      it reads as the same tokens, none of its runes is a raw hazard, and rewriting it
      once more changes nothing. */
  lemma DocumentKept(forging: Rune -> bool, b: seq<Byte>)
    requires Sane(forging) && IsDocument(b)
    ensures var out := EscapedBytes(forging, b);
            && IsDocument(out) && Lex(Decode(out)) == Lex(Decode(b))
            && (forall i :: 0 <= i < |Decode(out)| ==> Decode(out)[i] < 0x20 || !forging(Decode(out)[i]))
            && EscapedBytes(forging, out) == out
  {
    var t := Decode(b);
    DecodeScalars(b);
    EscapedReadsTheSame(forging, t);
    EscapedIsClean(forging, t);
    DecodeEncode(Escaped(forging, t));
    CleanIsFixed(forging, Escaped(forging, t));
  }

  // bytes.ContainsFunc.
  method ContainsRaw(forging: Rune -> bool, b: seq<Byte>) returns (found: bool)
    ensures found <==> !Clean(forging, Decode(b))
  {
    var rest := b;
    ghost var done: Text := [];
    while rest != []
      invariant Decode(b) == done + Decode(rest) && Clean(forging, done)
      decreases |rest|
    {
      if Raw(forging, DecodeRune(rest)) {
        assert Decode(b)[|done|] == DecodeRune(rest);
        return true;
      }
      done := done + [DecodeRune(rest)];
      rest := rest[Step(rest)..];
    }
    assert Decode(b) == done;
    return false;
  }

  /** The loop over the document.  On valid UTF-8 the early return and the loop agree. */
  method EscapeRawForgingRunes(forging: Rune -> bool, b: seq<Byte>) returns (out: seq<Byte>)
    ensures out == if Clean(forging, Decode(b)) then b else EscapedBytes(forging, b)
    ensures Valid(b) ==> out == EscapedBytes(forging, b)
  {
    DecodeScalars(b);
    var found := ContainsRaw(forging, b);
    if !found {
      CleanIsFixed(forging, Decode(b));
      RoundTripIffValid(b);
      return b;
    }
    out := [];
    var rest := b;
    while rest != []
      invariant EscapedBytes(forging, b) == out + EscapedBytes(forging, rest)
      decreases |rest|
    {
      var r := DecodeRune(rest);
      DecodedIsScalar(rest);
      EscapedFirst(forging, rest);
      AppendBytes(out, EscapedPiece(forging, r), EscapedBytes(forging, rest[Step(rest)..]));
      out := out + EscapedPiece(forging, r);
      rest := rest[Step(rest)..];
    }
  }

  // What one rune becomes.
  function EscapedPiece(forging: Rune -> bool, r: Rune): seq<Byte>
    requires Scalar(r)
  {
    Encode(if Raw(forging, r) then EscapeRune(r) else [r])
  }

  lemma EscapedFirst(forging: Rune -> bool, b: seq<Byte>)
    requires b != []
    ensures Scalar(DecodeRune(b))
    ensures EscapedBytes(forging, b) == EscapedPiece(forging, DecodeRune(b)) + EscapedBytes(forging, b[Step(b)..])
  {
    DecodeScalars(b);
    DecodedIsScalar(b);
    var r, rest := DecodeRune(b), Decode(b[Step(b)..]);
    assert Decode(b)[0] == r && Decode(b)[1..] == rest;
    EncodeConcat(if Raw(forging, r) then EscapeRune(r) else [r], Escaped(forging, rest));
  }

  lemma AppendBytes(a: seq<Byte>, b: seq<Byte>, c: seq<Byte>)
    ensures (a + b) + c == a + (b + c)
  {
  }

  // ---- the hazards --------------------------------------------------------------------------

  // policy.IsForgingRune: the controls, the two line separators and UAX #9's explicit
  // directional formatting characters.
  predicate IsForgingRune(r: Rune) {
    || 0 <= r < 0x20 || 0x7F <= r < 0xA0
    || r == 0x2028 || r == 0x2029
    || 0x202A <= r <= 0x202E || 0x2066 <= r <= 0x2069
  }

  // A remark on the set: it never names a rune a document's syntax or an escape is made of,
  // and below U+0020, which it does name, encoding/json left nothing raw in a literal.
  lemma ForgingIsSane()
    ensures Sane(IsForgingRune)
    ensures forall r :: 0x7F <= r < 0xA0 || r == 0x2028 || r == 0x2029 ==> Raw(IsForgingRune, r)
    ensures forall r :: 0x202A <= r <= 0x202E || 0x2066 <= r <= 0x2069 ==> Raw(IsForgingRune, r)
    ensures !IsForgingRune(0xA0) && !IsForgingRune(0x200B) && !IsForgingRune(0x200E) && !IsForgingRune(0x202F)
    ensures !IsForgingRune(0x2065) && !IsForgingRune(0x206A) && !IsForgingRune(0xAD)
    ensures forall r :: IsForgingRune(r) && !Raw(IsForgingRune, r) <==> 0 <= r < 0x20
  {
  }
}
