/** The parts of Go's strings and strconv packages the modelled code calls. */
module Strings {
  import opened Options

  // ---- strings.Split -------------------------------------------------------------

  // Where sep first occurs; the length when it does not.
  function Cut(s: string, sep: char): (i: nat)
    ensures i <= |s| && sep !in s[..i] && (i < |s| ==> s[i] == sep)
  {
    if s == "" || s[0] == sep then 0
    else
      var i := Cut(s[1..], sep);
      assert s[..1 + i] == [s[0]] + s[1..][..i];
      1 + i
  }

  function Split(s: string, sep: char): (parts: seq<string>)
    ensures parts != []
    decreases |s|
  {
    var i := Cut(s, sep);
    if i == |s| then [s] else [s[..i]] + Split(s[i + 1..], sep)
  }

  lemma {:induction false} CutAt(a: string, sep: char, b: string)
    requires sep !in a
    ensures Cut(a + [sep] + b, sep) == |a|
  {
    var s := a + [sep] + b;
    if a != "" {
      assert s[0] == a[0] && a[0] in a;
      assert s[1..] == a[1..] + [sep] + b;
      CutAt(a[1..], sep, b);
    }
  }

  lemma SplitAt(a: string, sep: char, b: string)
    requires sep !in a
    ensures Split(a + [sep] + b, sep) == [a] + Split(b, sep)
  {
    CutAt(a, sep, b);
    assert (a + [sep] + b)[|a| + 1..] == b;
    assert (a + [sep] + b)[..|a|] == a;
  }

  // Lines, each with its newline.
  function Text(lines: seq<string>): string {
    if lines == [] then "" else lines[0] + ['\n'] + Text(lines[1..])
  }

  lemma TextSplitsOff(line: string, rest: string)
    requires '\n' !in line
    ensures Split((line + ['\n']) + rest, '\n') == [line] + Split(rest, '\n')
  {
    SplitAt(line, '\n', rest);
  }

  lemma FirstOf(lines: seq<string>, last: string)
    requires lines != []
    ensures [lines[0]] + (lines[1..] + [last]) == lines + [last]
  {
  }

  lemma {:induction false} TextSplits(lines: seq<string>)
    requires forall l :: l in lines ==> '\n' !in l
    ensures Split(Text(lines), '\n') == lines + [""]
  {
    if lines != [] {
      TextSplits(lines[1..]);
      TextSplitsOff(lines[0], Text(lines[1..]));
      FirstOf(lines, "");
    }
  }

  // ---- strings.Fields -------------------------------------------------------------

  // unicode.IsSpace
  predicate IsSpace(c: char) {
    var n := c as int;
    9 <= n <= 13 || n == 32 || n == 0x85 || n == 0xA0 || n == 0x1680 || 0x2000 <= n <= 0x200A ||
    n == 0x2028 || n == 0x2029 || n == 0x202F || n == 0x205F || n == 0x3000
  }

  predicate IsWord(s: string) { s != "" && forall i :: 0 <= i < |s| ==> !IsSpace(s[i]) }

  // How many characters before the first space.
  function WordLength(s: string): (n: nat)
    ensures n <= |s| && forall i :: 0 <= i < n ==> !IsSpace(s[i])
    ensures n < |s| ==> IsSpace(s[n])
  {
    if s == "" || IsSpace(s[0]) then 0
    else
      var n := WordLength(s[1..]);
      assert forall i :: 1 <= i < 1 + n ==> s[i] == s[1..][i - 1];
      1 + n
  }

  function Fields(s: string): (words: seq<string>)
    ensures forall i :: 0 <= i < |words| ==> IsWord(words[i])
    decreases |s|
  {
    if s == "" then []
    else if IsSpace(s[0]) then Fields(s[1..])
    else [s[..WordLength(s)]] + Fields(s[WordLength(s)..])
  }

  lemma {:induction false} FieldsSkip(pad: string, s: string)
    requires forall i :: 0 <= i < |pad| ==> IsSpace(pad[i])
    ensures Fields(pad + s) == Fields(s)
  {
    if pad == "" {
      assert pad + s == s;
    } else {
      FieldsSkip(pad[1..], s);
      assert (pad + s)[1..] == pad[1..] + s;
    }
  }

  lemma {:induction false} WordEnds(word: string, rest: string)
    requires forall i :: 0 <= i < |word| ==> !IsSpace(word[i])
    requires rest != "" ==> IsSpace(rest[0])
    ensures WordLength(word + rest) == |word|
  {
    if word != "" {
      assert (word + rest)[1..] == word[1..] + rest;
      WordEnds(word[1..], rest);
    } else {
      assert word + rest == rest;
    }
  }

  lemma FieldsWord(word: string, rest: string)
    requires IsWord(word) && (rest != "" ==> IsSpace(rest[0]))
    ensures Fields(word + rest) == [word] + Fields(rest)
  {
    var s := word + rest;
    WordEnds(word, rest);
    assert s[..|word|] == word && s[|word|..] == rest;
  }

  // ---- decimal numbers ---------------------------------------------------------------

  predicate IsDigit(c: char) { '0' <= c <= '9' }

  predicate AllDigits(s: string) { forall i :: 0 <= i < |s| ==> IsDigit(s[i]) }

  function Decimal(n: nat): (s: string)
    ensures s != "" && AllDigits(s)
  {
    if n < 10 then ['0' + n as char] else Decimal(n / 10) + ['0' + (n % 10) as char]
  }

  function NumberValue(s: string): nat
    requires AllDigits(s)
  {
    if s == "" then 0
    else
      assert IsDigit(s[|s| - 1]);
      NumberValue(s[..|s| - 1]) * 10 + (s[|s| - 1] - '0') as nat
  }

  lemma {:induction false} DecimalReads(n: nat)
    ensures NumberValue(Decimal(n)) == n
  {
    if n >= 10 {
      DecimalReads(n / 10);
      assert Decimal(n)[..|Decimal(n)| - 1] == Decimal(n / 10);
    }
  }

  // strconv.ParseUint(s, 10, 64)
  function ParseUint64(s: string): Option<nat> {
    if s == "" || !AllDigits(s) || NumberValue(s) >= 0x1_0000_0000_0000_0000 then None else Some(NumberValue(s))
  }

  lemma DecimalIsWord(n: nat)
    ensures IsWord(Decimal(n))
    ensures ParseUint64(Decimal(n)) == if n < 0x1_0000_0000_0000_0000 then Some(n) else None
  {
    DecimalReads(n);
    assert forall i :: 0 <= i < |Decimal(n)| ==> IsDigit(Decimal(n)[i]);
  }

  // strconv.Atoi where int has 64 bits
  function Atoi(s: string): (r: Option<int>)
    ensures r.Some? ==> -0x8000_0000_0000_0000 <= r.value < 0x8000_0000_0000_0000
  {
    var digits := if s != "" && (s[0] == '-' || s[0] == '+') then s[1..] else s;
    if digits == "" || !AllDigits(digits) then None
    else
      var n: int := if s[0] == '-' then 0 - NumberValue(digits) as int else NumberValue(digits) as int;
      if -0x8000_0000_0000_0000 <= n < 0x8000_0000_0000_0000 then Some(n) else None
  }

  // Signs, and what is no number.
  lemma AtoiSigns(n: nat)
    requires 0 < n < 0x8000_0000_0000_0000
    ensures Atoi("-" + Decimal(n)) == Some(0 - n) && Atoi("+" + Decimal(n)) == Some(n) && Atoi(Decimal(n)) == Some(n)
    ensures Atoi("") == None && Atoi("-") == None && Atoi(Decimal(n) + ".") == None
  {
    DecimalReads(n);
    assert ("-" + Decimal(n))[1..] == Decimal(n) && ("+" + Decimal(n))[1..] == Decimal(n);
    assert IsDigit(Decimal(n)[0]);
    var dotted := Decimal(n) + ".";
    assert dotted[|dotted| - 1] == '.' && dotted[0] == Decimal(n)[0];
  }

  // ---- strings.TrimSpace ---------------------------------------------------------------

  function TrimFront(s: string): string { if s != "" && IsSpace(s[0]) then TrimFront(s[1..]) else s }

  function TrimBack(s: string): string {
    if s != "" && IsSpace(s[|s| - 1]) then TrimBack(s[..|s| - 1]) else s
  }

  function TrimSpace(s: string): string { TrimBack(TrimFront(s)) }

  lemma WordAndNewline(word: string)
    requires IsWord(word)
    ensures TrimSpace(word + "\n") == word
  {
    var s := word + "\n";
    assert s[0] == word[0] && s[|s| - 1] == '\n' && s[..|s| - 1] == word;
    assert !IsSpace(word[|word| - 1]) && TrimBack(word) == word;
    assert TrimBack(s) == TrimBack(word);
  }

  // A number printed with %d and a newline is read back.
  lemma PrintedReads(n: nat)
    requires n < 0x8000_0000_0000_0000
    ensures Atoi(TrimSpace(Decimal(n) + "\n")) == Some(n)
  {
    DecimalIsWord(n);
    DecimalReads(n);
    WordAndNewline(Decimal(n));
    assert IsDigit(Decimal(n)[0]);
  }

  // ---- strings.ToUpper on ASCII ----------------------------------------------------------

  function UpperChar(c: char): char { if 'a' <= c <= 'z' then c - 'a' + 'A' else c }

  function Upper(s: string): (u: string)
    ensures |u| == |s| && forall i :: 0 <= i < |s| ==> u[i] == UpperChar(s[i])
  {
    seq(|s|, i requires 0 <= i < |s| => UpperChar(s[i]))
  }

  // ---- Go's < on strings -----------------------------------------------------------------

  predicate Less(a: string, b: string) {
    if b == "" then false else a == "" || a[0] < b[0] || (a[0] == b[0] && Less(a[1..], b[1..]))
  }

  lemma {:induction false} LessIsStrict(a: string, b: string)
    requires Less(a, b)
    ensures a != b && !Less(b, a)
  {
    if a != "" && a[0] == b[0] {
      LessIsStrict(a[1..], b[1..]);
    }
  }

  lemma {:induction false} LessIsTotal(a: string, b: string)
    ensures a == b || Less(a, b) || Less(b, a)
  {
    if a != "" && b != "" && a[0] == b[0] {
      LessIsTotal(a[1..], b[1..]);
      assert a == [a[0]] + a[1..] && b == [b[0]] + b[1..];
    }
  }

  lemma {:induction false} LessIsTransitive(a: string, b: string, c: string)
    requires Less(a, b) && Less(b, c)
    ensures Less(a, c)
  {
    if a != "" && a[0] == b[0] == c[0] {
      LessIsTransitive(a[1..], b[1..], c[1..]);
    }
  }
}
