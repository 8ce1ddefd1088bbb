/**
 How a value that is not valid UTF-8 still reaches a reader of the JSON dry run: the
 string field, which then is only an approximation, gets a sibling with the bytes.
 */
module Fidelity {
  import opened Options
  import opened Utf8
  import opened Strings

  type Bytes = seq<Byte>

  // ---- the encoder ---------------------------------------------------------------

  // None is a nil byteList, which marshals to null.
  function Sibling(s: Bytes): Option<Bytes> { if Valid(s) then None else Some(s) }

  class LossyEncoder {
    var lossy: bool
    ghost var asked: seq<Bytes>  // every value put through text, in order

    // lossy says whether any value so far was one the string field cannot be.
    ghost predicate Honest() reads this { lossy <==> exists s :: s in asked && !Valid(s) }

    constructor ()
      ensures Honest() && asked == []
    {
      lossy := false;
      asked := [];
    }

    method Text(s: Bytes) returns (field: Bytes, sibling: Option<Bytes>)
      requires Honest()
      modifies this
      ensures Honest() && asked == old(asked) + [s]
      ensures field == s && sibling == if Valid(s) then None else Some(s)
    {
      asked := asked + [s];
      assert s in asked;
      if Valid(s) {
        return s, None;
      }
      lossy := true;
      return s, Some(s);
    }

    method Texts(values: seq<Bytes>) returns (fields: seq<Bytes>, siblings: Option<seq<Option<Bytes>>>)
      requires Honest()
      modifies this
      ensures Honest() && asked == old(asked) + values
      ensures fields == values && siblings == Siblings(values)
    {
      if values == [] {
        return [], None;
      }
      fields := [];
      var sibs := [];
      var some := false;
      var i := 0;
      while i < |values|
        invariant i <= |values| && Honest() && asked == old(asked) + values[..i]
        invariant fields == values[..i] && sibs == seq(i, k requires 0 <= k < i => Sibling(values[k]))
        invariant some <==> exists k :: 0 <= k < i && !Valid(values[k])
      {
        var field, sibling := Text(values[i]);
        fields := fields + [field];
        sibs := sibs + [sibling];
        if sibling.Some? {
          some := true;
        }
        i := i + 1;
      }
      assert values[..|values|] == values;
      return fields, if some then Some(sibs) else None;
    }
  }

  // The sibling list is there exactly when some element needs it, and is index-aligned.
  function Siblings(values: seq<Bytes>): Option<seq<Option<Bytes>>> {
    if exists k :: 0 <= k < |values| && !Valid(values[k]) then
      Some(seq(|values|, k requires 0 <= k < |values| => Sibling(values[k])))
    else None
  }

  // ---- what a consumer gets back ----------------------------------------------------

  // encoding/json writes the runes of the field, bad bytes as U+FFFD.
  function Wire(values: seq<Bytes>): seq<seq<Rune>> {
    seq(|values|, k requires 0 <= k < |values| => Decode(values[k]))
  }

  predicate Aligned(strings: seq<seq<Rune>>, siblings: Option<seq<Option<Bytes>>>) {
    siblings.None? || |siblings.value| == |strings|
  }

  // A consumer's rule: the sibling bytes where they are not null, the string otherwise.
  function Recover(strings: seq<seq<Rune>>, siblings: Option<seq<Option<Bytes>>>): seq<Bytes>
    requires Aligned(strings, siblings)
  {
    seq(|strings|, k requires 0 <= k < |strings| =>
      if siblings.Some? && siblings.value[k].Some? then siblings.value[k].value else Encode(strings[k]))
  }

  /** The pair of lists determines the values exactly, bytes and order, whatever the
      values; the strings alone would do so exactly when the sibling list is absent. */
  lemma TextsDetermineTheValues(values: seq<Bytes>)
    ensures Aligned(Wire(values), Siblings(values))
    ensures Recover(Wire(values), Siblings(values)) == values
    ensures Siblings(values).None? <==> Recover(Wire(values), None) == values
  {
    var wire, sib := Wire(values), Siblings(values);
    forall k | 0 <= k < |values|
      ensures Recover(wire, sib)[k] == values[k]
      ensures Recover(wire, None)[k] == values[k] <==> Valid(values[k])
    {
      RoundTripIffValid(values[k]);
    }
    assert Recover(wire, sib) == values;
    if sib.None? {
      assert Recover(wire, None) == values;
    }
  }

  // ---- byteList's own JSON ---------------------------------------------------------------

  function Items(b: Bytes, i: nat): string
    requires i <= |b|
    decreases |b| - i
  {
    if i == |b| then "]" else (if i > 0 then "," else "") + Decimal(b[i]) + Items(b, i + 1)
  }

  method MarshalBytes(b: Option<Bytes>) returns (out: string)
    ensures out == if b.None? then "null" else "[" + Items(b.value, 0)
  {
    if b.None? {
      return "null";
    }
    out := "[";
    var i := 0;
    while i < |b.value|
      invariant i <= |b.value| && out + Items(b.value, i) == "[" + Items(b.value, 0)
    {
      if i > 0 {
        out := out + ",";
      }
      out := out + Decimal(b.value[i]);
      i := i + 1;
    }
    out := out + "]";
  }

  // How many digits s starts with.
  function Digits(s: string): (n: nat)
    ensures n <= |s| && forall i :: 0 <= i < n ==> IsDigit(s[i])
  {
    if s == "" || !IsDigit(s[0]) then 0
    else
      var n := Digits(s[1..]);
      assert forall i :: 1 <= i < 1 + n ==> s[i] == s[1..][i - 1];
      1 + n
  }

  // A JSON array of numbers after its first bracket or an element: ']' or ',' and a number.
  function ParseTail(s: string): Option<seq<nat>>
    decreases |s|
  {
    if s == "]" then Some([])
    else if s == "" || s[0] != ',' then None
    else ParseNumber(s[1..])
  }

  function ParseNumber(s: string): Option<seq<nat>>
    decreases |s|
  {
    var n := Digits(s);
    if n == 0 then None
    else
      var rest := ParseTail(s[n..]);
      if rest.None? then None else Some([NumberValue(s[..n])] + rest.value)
  }

  function ParseArray(s: string): Option<seq<nat>> {
    if s == "" || s[0] != '[' then None
    else if s[1..] == "]" then Some([]) else ParseNumber(s[1..])
  }

  lemma {:induction false} DigitsOf(digits: string, rest: string)
    requires forall i :: 0 <= i < |digits| ==> IsDigit(digits[i])
    requires rest != "" && !IsDigit(rest[0])
    ensures Digits(digits + rest) == |digits|
  {
    if digits != "" {
      DigitsOf(digits[1..], rest);
      assert (digits + rest)[1..] == digits[1..] + rest;
    } else {
      assert digits + rest == rest;
    }
  }

  lemma NumberThenRest(n: nat, rest: string)
    requires rest != "" && !IsDigit(rest[0])
    ensures ParseNumber(Decimal(n) + rest) ==
              if ParseTail(rest).None? then None else Some([n] + ParseTail(rest).value)
  {
    var d := Decimal(n);
    DigitsOf(d, rest);
    DecimalReads(n);
    assert (d + rest)[..|d|] == d && (d + rest)[|d|..] == rest;
  }

  lemma CommaThenRest(number: string, rest: string)
    ensures ParseTail(("," + number) + rest) == ParseNumber(number + rest)
  {
    var s := ("," + number) + rest;
    assert s[0] == ',' && s[1..] == number + rest;
  }

  // The elements from i on, each behind its comma.
  lemma {:induction false} ItemsParse(b: Bytes, i: nat)
    requires 0 < i <= |b|
    ensures Items(b, i) != "" && !IsDigit(Items(b, i)[0]) && ParseTail(Items(b, i)) == Some(b[i..])
    decreases |b| - i
  {
    if i < |b| {
      ItemsParse(b, i + 1);
      NumberThenRest(b[i], Items(b, i + 1));
      CommaThenRest(Decimal(b[i]), Items(b, i + 1));
      assert b[i..] == [b[i]] + b[i + 1..];
    } else {
      assert b[i..] == [];
    }
  }

  lemma NoComma(number: string, rest: string)
    requires number != "" && IsDigit(number[0])
    ensures ("" + number) + rest == number + rest && number + rest != "]"
  {
    assert (number + rest)[0] == number[0];
  }

  lemma ItemsReadBack(b: Bytes)
    requires b != []
    ensures Items(b, 0) != "]" && ParseNumber(Items(b, 0)) == Some(b)
  {
    ItemsParse(b, 1);
    NumberThenRest(b[0], Items(b, 1));
    NoComma(Decimal(b[0]), Items(b, 1));
    assert [b[0]] + b[1..] == b;
  }

  /** The numerals read back as the very bytes, so null (no sibling) and the empty list
      and every other list stay apart. */
  lemma MarshalledBytesReadBack(b: Bytes)
    ensures ParseArray("[" + Items(b, 0)) == Some(b)
    ensures ParseArray("null") == None
  {
    assert ("[" + Items(b, 0))[1..] == Items(b, 0);
    if b != [] {
      ItemsReadBack(b);
    }
  }
}
