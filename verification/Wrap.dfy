/**
 Greedy line filling, in the three places the screens use it: wrapWords, wrapMark and
 wrapGraftField.  wrapWords counts bytes and the other two count characters; words are
 never split.

 The three differ only in how much room the first line and the later ones have, so one
 greedy filling is proved to be the best possible and each method is proved to be it.
 */
module Wrap {
  import opened Strings
  import Utf8

  type Word = string

  // ---- how long a string is ---------------------------------------------------------

  // len(s), and utf8.RuneCountInString(s).
  datatype Measure = Bytes | Runes

  function ByteLength(s: string): nat {
    if s == "" then 0 else |Utf8.EncodeRune(s[0] as int)| + ByteLength(s[1..])
  }

  function Len(m: Measure, s: string): nat { if m == Bytes then ByteLength(s) else |s| }

  // len(s) is the length of its UTF-8.
  lemma {:induction false} BytesAreUtf8(s: string)
    ensures ByteLength(s) == |Utf8.Encode(seq(|s|, i requires 0 <= i < |s| => s[i] as int))|
  {
    var rs: seq<Utf8.Rune> := seq(|s|, i requires 0 <= i < |s| => s[i] as int);
    if s != "" {
      BytesAreUtf8(s[1..]);
      assert rs[1..] == seq(|s| - 1, i requires 0 <= i < |s| - 1 => s[1..][i] as int);
    }
  }

  lemma {:induction false} BytesJoin(a: string, b: string)
    ensures ByteLength(a + b) == ByteLength(a) + ByteLength(b)
  {
    if a == "" {
      assert a + b == b;
    } else {
      assert (a + b)[1..] == a[1..] + b;
      BytesJoin(a[1..], b);
    }
  }

  lemma LenJoins(m: Measure, a: string, b: string)
    ensures Len(m, a + b) == Len(m, a) + Len(m, b)
  {
    BytesJoin(a, b);
  }

  lemma LenSpace(m: Measure)
    ensures Len(m, " ") == 1
  {
    assert " "[1..] == "";
  }

  lemma LenWords(m: Measure, line: string, w: Word)
    ensures Len(m, line + " " + w) == Len(m, line) + 1 + Len(m, w)
  {
    LenSpace(m);
    LenJoins(m, line, " ");
    LenJoins(m, line + " ", w);
  }

  // ---- breakings into lines -----------------------------------------------------------

  // The words of one line joined by single spaces.
  function Join(ws: seq<Word>): string {
    if ws == [] then "" else if |ws| == 1 then ws[0] else Join(ws[..|ws| - 1]) + " " + ws[|ws| - 1]
  }

  function Flatten(lines: seq<seq<Word>>): seq<Word> {
    if lines == [] then [] else lines[0] + Flatten(lines[1..])
  }

  // A line fits its room, or is one over-long word.
  predicate LineOk(m: Measure, line: seq<Word>, room: int) {
    line != [] && (Width(m, line) <= room || |line| == 1)
  }

  // The first line has its own room, the rest another.
  predicate Breaking(m: Measure, lines: seq<seq<Word>>, ws: seq<Word>, first: int, rest: int) {
    && Flatten(lines) == ws
    && forall i :: 0 <= i < |lines| ==> LineOk(m, lines[i], if i == 0 then first else rest)
  }

  // ---- how much greed takes ---------------------------------------------------------------

  function Width(m: Measure, ws: seq<Word>): nat { Len(m, Join(ws)) }

  // One more word costs a space and itself.
  lemma WidthAppend(m: Measure, ws: seq<Word>)
    requires |ws| > 1
    ensures Width(m, ws) == Width(m, ws[..|ws| - 1]) + 1 + Len(m, ws[|ws| - 1])
  {
    LenWords(m, Join(ws[..|ws| - 1]), ws[|ws| - 1]);
  }

  lemma WidthOfNone(m: Measure)
    ensures Width(m, []) == 0
  {
  }

  lemma {:induction false} WidthGrows(m: Measure, ws: seq<Word>, n: nat)
    requires n <= |ws|
    ensures Width(m, ws[..n]) <= Width(m, ws)
    decreases |ws|
  {
    WidthOfNone(m);
    if n == |ws| {
      assert ws[..n] == ws;
    } else if |ws| > 1 {
      var front := ws[..|ws| - 1];
      WidthGrows(m, front, n);
      WidthAppend(m, ws);
      assert front[..n] == ws[..n];
    }
  }

  lemma PrefixGrows(m: Measure, ws: seq<Word>, j: nat, n: nat)
    requires j <= n <= |ws|
    ensures Width(m, ws[..j]) <= Width(m, ws[..n])
  {
    WidthGrows(m, ws[..n], j);
    assert ws[..n][..j] == ws[..j];
  }

  // Dropping the first word makes a line shorter.
  lemma {:induction false} WidthOfTail(m: Measure, ws: seq<Word>)
    requires |ws| > 1
    ensures Width(m, ws[1..]) < Width(m, ws)
    decreases |ws|
  {
    WidthAppend(m, ws);
    if |ws| > 2 {
      var front := ws[..|ws| - 1];
      WidthOfTail(m, front);
      WidthAppend(m, ws[1..]);
      assert ws[1..][..|ws| - 2] == front[1..];
    } else {
      assert ws[1..] == [ws[1]];
    }
  }

  // How many words the greedy line takes, having taken n.
  function Taken(m: Measure, ws: seq<Word>, n: nat, room: int): (k: nat)
    requires 0 < n <= |ws|
    ensures n <= k <= |ws|
    decreases |ws| - n
  {
    if n < |ws| && Width(m, ws[..n + 1]) <= room then Taken(m, ws, n + 1, room) else n
  }

  // All that fits, and no more.
  lemma {:induction false} TakenFits(m: Measure, ws: seq<Word>, n: nat, k: nat, room: int)
    requires 0 < n <= |ws| && k == Taken(m, ws, n, room)
    ensures k > n ==> Width(m, ws[..k]) <= room
    ensures k < |ws| ==> Width(m, ws[..k + 1]) > room
    decreases |ws| - n
  {
    if k > n {
      TakenFits(m, ws, n + 1, k, room);
    }
  }

  function Greedy(m: Measure, ws: seq<Word>, first: int, rest: int): (lines: seq<seq<Word>>)
    decreases |ws|
  {
    if ws == [] then []
    else
      var k := Taken(m, ws, 1, first);
      [ws[..k]] + Greedy(m, ws[k..], rest, rest)
  }

  lemma {:induction false} GreedyBreaks(m: Measure, ws: seq<Word>, first: int, rest: int)
    ensures Breaking(m, Greedy(m, ws, first, rest), ws, first, rest)
    decreases |ws|
  {
    if ws != [] {
      var k := Taken(m, ws, 1, first);
      TakenFits(m, ws, 1, k, first);
      GreedyBreaks(m, ws[k..], rest, rest);
      assert ws == ws[..k] + ws[k..];
    }
  }

  // Greed takes at least as much as any line that fits.
  lemma TakenIsMost(m: Measure, ws: seq<Word>, n: nat, room: int)
    requires 0 < n <= |ws| && LineOk(m, ws[..n], room)
    ensures n <= Taken(m, ws, 1, room)
  {
    var k := Taken(m, ws, 1, room);
    TakenFits(m, ws, 1, k, room);
    if k + 1 <= n {
      PrefixGrows(m, ws, k + 1, n);
    }
  }

  // ---- lines as jumps from word to word ---------------------------------------------------

  // next says where the line that starts at a word ends; it goes on, and not past n.
  predicate Jumps(next: seq<nat>) { forall i :: 0 <= i < |next| ==> i < next[i] <= |next| }

  predicate Ascends(next: seq<nat>) { forall i :: 0 <= i < |next| - 1 ==> next[i] <= next[i + 1] }

  function LinesFrom(next: seq<nat>, i: nat): nat
    requires Jumps(next) && i <= |next|
    decreases |next| - i
  {
    if i == |next| then 0 else 1 + LinesFrom(next, next[i])
  }

  lemma {:induction false} AscendsFar(next: seq<nat>, i: nat, j: nat)
    requires Ascends(next) && i <= j < |next|
    ensures next[i] <= next[j]
    decreases j
  {
    if i < j {
      AscendsFar(next, i, j - 1);
    }
  }

  // Starting later never needs more lines.
  lemma {:induction false} LaterNeedsNoMore(next: seq<nat>, i: nat, j: nat)
    requires Jumps(next) && Ascends(next) && i <= j <= |next|
    ensures LinesFrom(next, j) <= LinesFrom(next, i)
    decreases |next| - i
  {
    if j < |next| {
      AscendsFar(next, i, j);
      LaterNeedsNoMore(next, next[i], next[j]);
    }
  }

  // Where greed's line from word i on ends.
  function LineEnd(m: Measure, ws: seq<Word>, i: nat, rest: int): (e: nat)
    requires i < |ws|
    ensures i < e <= |ws|
  {
    i + Taken(m, ws[i..], 1, rest)
  }

  function LineEnds(m: Measure, ws: seq<Word>, rest: int): (next: seq<nat>)
    ensures |next| == |ws| && Jumps(next)
    ensures forall i :: 0 <= i < |ws| ==> next[i] == LineEnd(m, ws, i, rest)
  {
    seq(|ws|, i requires 0 <= i < |ws| => LineEnd(m, ws, i, rest))
  }

  // Without its first word a line reaches at least as far.
  lemma TailReachesAsFar(m: Measure, ws: seq<Word>, i: nat, rest: int)
    requires i + 1 < |ws|
    ensures LineEnd(m, ws, i, rest) <= LineEnd(m, ws, i + 1, rest)
  {
    var line, tail := ws[i..], ws[i + 1..];
    var k := Taken(m, line, 1, rest);
    if k > 1 {
      TakenFits(m, line, 1, k, rest);
      WidthOfTail(m, line[..k]);
      assert line[..k][1..] == tail[..k - 1];
      TakenIsMost(m, tail, k - 1, rest);
    }
  }

  lemma DropTwice(ws: seq<Word>, a: nat, b: nat)
    requires a + b <= |ws|
    ensures ws[a..][b..] == ws[a + b..]
  {
  }

  lemma GreedyStep(m: Measure, line: seq<Word>, tail: seq<Word>, rest: int)
    requires line != [] && tail == line[Taken(m, line, 1, rest)..]
    ensures |Greedy(m, line, rest, rest)| == 1 + |Greedy(m, tail, rest, rest)|
  {
  }

  lemma {:induction false} LinesAreGreedy(m: Measure, ws: seq<Word>, next: seq<nat>, i: nat, rest: int)
    requires i <= |ws| && next == LineEnds(m, ws, rest)
    ensures LinesFrom(next, i) == |Greedy(m, ws[i..], rest, rest)|
    decreases |ws| - i
  {
    if i < |ws| {
      DropTwice(ws, i, next[i] - i);
      GreedyStep(m, ws[i..], ws[next[i]..], rest);
      LinesAreGreedy(m, ws, next, next[i], rest);
    } else {
      assert ws[i..] == [];
    }
  }

  // Greed needs no more lines from a later word on.
  lemma GreedyFromLater(m: Measure, ws: seq<Word>, n: nat, k: nat, rest: int)
    requires n <= k <= |ws|
    ensures |Greedy(m, ws[k..], rest, rest)| <= |Greedy(m, ws[n..], rest, rest)|
  {
    var next := LineEnds(m, ws, rest);
    forall i | 0 <= i < |ws| - 1 ensures next[i] <= next[i + 1] { TailReachesAsFar(m, ws, i, rest); }
    LaterNeedsNoMore(next, n, k);
    LinesAreGreedy(m, ws, next, n, rest);
    LinesAreGreedy(m, ws, next, k, rest);
  }

  // The rest of a breaking breaks the rest of the words.
  lemma BreakingTail(m: Measure, lines: seq<seq<Word>>, ws: seq<Word>, first: int, rest: int)
    requires Breaking(m, lines, ws, first, rest) && ws != []
    ensures lines != [] && var n := |lines[0]|;
            0 < n <= |ws| && LineOk(m, ws[..n], first) && Breaking(m, lines[1..], ws[n..], rest, rest)
  {
    var n := |lines[0]|;
    assert LineOk(m, lines[0], first);
    assert ws[..n] == lines[0] && ws[n..] == Flatten(lines[1..]);
    forall i | 0 <= i < |lines| - 1 ensures LineOk(m, lines[1..][i], rest) {
      assert LineOk(m, lines[i + 1], rest);
    }
  }

  /** GREEDY IS BEST.  No way of breaking the words into lines that fit uses fewer lines,
      also when the later lines are narrower (or wider) than the first. */
  lemma {:induction false} GreedyIsBest(m: Measure, lines: seq<seq<Word>>, ws: seq<Word>, first: int, rest: int)
    requires Breaking(m, lines, ws, first, rest)
    ensures |Greedy(m, ws, first, rest)| <= |lines|
    decreases |lines|
  {
    if ws != [] {
      BreakingTail(m, lines, ws, first, rest);
      var n, k := |lines[0]|, Taken(m, ws, 1, first);
      TakenIsMost(m, ws, n, first);
      GreedyIsBest(m, lines[1..], ws[n..], rest, rest);
      GreedyFromLater(m, ws, n, k, rest);
    }
  }

  // ---- filling lines in a loop -----------------------------------------------------------

  // The lines as printed, each behind its indent.
  function Rendered(lines: seq<seq<Word>>, head: string, cont: string): seq<string> {
    seq(|lines|, i requires 0 <= i < |lines| => (if i == 0 then head else cont) + Join(lines[i]))
  }

  /** What the loops print from here on: the line being filled, with the room it has, and
      the words still to come. */
  function Fill(m: Measure, prefix: string, cont: string, line: string, ws: seq<Word>, room: int, rest: int): seq<string>
    decreases |ws|
  {
    if ws == [] then [prefix + line]
    else if Len(m, line) + 1 + Len(m, ws[0]) <= room then Fill(m, prefix, cont, line + " " + ws[0], ws[1..], room, rest)
    else [prefix + line] + Fill(m, cont, cont, ws[0], ws[1..], rest, rest)
  }

  lemma RenderedFirst(line: seq<Word>, lines: seq<seq<Word>>, head: string, cont: string)
    ensures Rendered([line] + lines, head, cont) == [head + Join(line)] + Rendered(lines, cont, cont)
  {
  }

  // The line being filled is what greed has taken of all the words so far.
  predicate Filling(m: Measure, cur: seq<Word>, ws: seq<Word>, room: int) {
    cur != [] && Taken(m, cur + ws, 1, room) == Taken(m, cur + ws, |cur|, room)
  }

  lemma OneMoreFits(m: Measure, cur: seq<Word>, ws: seq<Word>, room: int)
    requires Filling(m, cur, ws, room) && ws != [] && Width(m, cur + [ws[0]]) <= room
    ensures Filling(m, cur + [ws[0]], ws[1..], room) && (cur + [ws[0]]) + ws[1..] == cur + ws
  {
    assert (cur + [ws[0]]) + ws[1..] == cur + ws;
    assert (cur + ws)[..|cur| + 1] == cur + [ws[0]];
  }

  lemma LineIsFull(m: Measure, cur: seq<Word>, ws: seq<Word>, room: int, rest: int)
    requires Filling(m, cur, ws, room) && (ws != [] ==> Width(m, cur + [ws[0]]) > room)
    ensures Greedy(m, cur + ws, room, rest) == [cur] + Greedy(m, ws, rest, rest)
  {
    var all := cur + ws;
    assert ws != [] ==> all[..|cur| + 1] == cur + [ws[0]];
    assert all[..|cur|] == cur && all[|cur|..] == ws;
  }

  lemma JoinOneMore(m: Measure, cur: seq<Word>, w: Word)
    requires cur != []
    ensures Join(cur + [w]) == Join(cur) + " " + w
    ensures Width(m, cur + [w]) == Len(m, Join(cur)) + 1 + Len(m, w)
  {
    assert (cur + [w])[..|cur|] == cur;
    LenWords(m, Join(cur), w);
  }

  lemma {:induction false} FillIsGreedy(m: Measure, prefix: string, cont: string, cur: seq<Word>, ws: seq<Word>, room: int, rest: int)
    requires Filling(m, cur, ws, room)
    ensures Fill(m, prefix, cont, Join(cur), ws, room, rest) == Rendered(Greedy(m, cur + ws, room, rest), prefix, cont)
    decreases |ws|
  {
    if ws == [] {
      LineIsFull(m, cur, ws, room, rest);
      RenderedFirst(cur, [], prefix, cont);
    } else {
      JoinOneMore(m, cur, ws[0]);
      if Width(m, cur + [ws[0]]) <= room {
        OneMoreFits(m, cur, ws, room);
        FillIsGreedy(m, prefix, cont, cur + [ws[0]], ws[1..], room, rest);
      } else {
        LineIsFull(m, cur, ws, room, rest);
        RenderedFirst(cur, Greedy(m, ws, rest, rest), prefix, cont);
        assert [ws[0]] + ws[1..] == ws;
        FillIsGreedy(m, cont, cont, [ws[0]], ws[1..], rest, rest);
      }
    }
  }

  lemma NoPrefix(line: string)
    ensures "" + line == line
  {
  }

  // Filling from the first word is greedy filling.
  lemma FillFromFirst(m: Measure, prefix: string, cont: string, ws: seq<Word>, room: int, rest: int)
    requires ws != []
    ensures Fill(m, prefix, cont, ws[0], ws[1..], room, rest) == Rendered(Greedy(m, ws, room, rest), prefix, cont)
  {
    assert [ws[0]] + ws[1..] == ws;
    FillIsGreedy(m, prefix, cont, [ws[0]], ws[1..], room, rest);
  }

  // ---- wrapWords ----------------------------------------------------------------------------

  method WrapWords(text: string, width: int) returns (out: seq<string>)
    ensures out == Rendered(Greedy(Bytes, Fields(text), width, width), "", "")
  {
    if text == "" {
      return [];
    }
    out := FillWords(Fields(text), width);
  }

  // What the loop prints from here on; its lines have no indent.
  function Bare(line: string, ws: seq<Word>, width: int): seq<string>
    decreases |ws|
  {
    if ws == [] then [line]
    else if Len(Bytes, line) + 1 + Len(Bytes, ws[0]) <= width then Bare(line + " " + ws[0], ws[1..], width)
    else [line] + Bare(ws[0], ws[1..], width)
  }

  lemma {:induction false} BareIsFill(line: string, ws: seq<Word>, width: int)
    ensures Bare(line, ws, width) == Fill(Bytes, "", "", line, ws, width, width)
    decreases |ws|
  {
    NoPrefix(line);
    if ws != [] {
      if Len(Bytes, line) + 1 + Len(Bytes, ws[0]) <= width {
        BareIsFill(line + " " + ws[0], ws[1..], width);
      } else {
        BareIsFill(ws[0], ws[1..], width);
      }
    }
  }

  method FillWords(ws: seq<Word>, width: int) returns (out: seq<string>)
    requires forall i :: 0 <= i < |ws| ==> ws[i] != ""
    ensures out == Rendered(Greedy(Bytes, ws, width, width), "", "")
  {
    ghost var whole := Rendered(Greedy(Bytes, ws, width, width), "", "");
    if ws != [] {
      FillFromFirst(Bytes, "", "", ws, width, width);
      BareIsFill(ws[0], ws[1..], width);
    }
    out := [];
    var line := "";
    var i := 0;
    while i < |ws|
      invariant i <= |ws| && (i == 0 <==> line == "") && (i == 0 ==> out == [])
      invariant i > 0 ==> out + Bare(line, ws[i..], width) == whole
    {
      var w := ws[i];
      assert i > 0 ==> ws[i..][1..] == ws[i + 1..];
      if line == "" {
        line := w;
      } else if Len(Bytes, line) + 1 + Len(Bytes, w) <= width {
        line := line + " " + w;
      } else {
        out := out + [line];
        line := w;
      }
      i := i + 1;
    }
    if line != "" {
      out := out + [line];
    }
  }

  // ---- wrapMark -------------------------------------------------------------------------------

  const MARK_INDENT: nat := 21
  const MARK_WRAP_PAD: nat := 2
  const SCREEN_WIDTH: nat := 80

  function Blanks(n: nat): string { seq(n, _ => ' ') }

  function TrimLeft(s: string): string { if s != "" && s[0] == ' ' then TrimLeft(s[1..]) else s }

  function MarkLines(mark: string): seq<seq<Word>> {
    Greedy(Runes, Fields(mark), SCREEN_WIDTH - MARK_INDENT, SCREEN_WIDTH - MARK_INDENT - MARK_WRAP_PAD)
  }

  lemma {:induction false} TrimKeepsWords(s: string)
    ensures Fields(TrimLeft(s)) == Fields(s)
  {
    if s != "" && s[0] == ' ' {
      TrimKeepsWords(s[1..]);
    }
  }

  method WrapMark(mark: string) returns (out: seq<string>)
    ensures out == Rendered(MarkLines(mark), Blanks(MARK_INDENT), Blanks(MARK_INDENT + MARK_WRAP_PAD))
  {
    TrimKeepsWords(mark);
    var s := TrimLeft(mark);
    if s == "" {
      return [];
    }
    out := FillMark(Fields(s));
  }

  method FillMark(ws: seq<Word>) returns (out: seq<string>)
    requires forall i :: 0 <= i < |ws| ==> ws[i] != ""
    ensures var first, rest := SCREEN_WIDTH - MARK_INDENT, SCREEN_WIDTH - MARK_INDENT - MARK_WRAP_PAD;
            out == Rendered(Greedy(Runes, ws, first, rest), Blanks(MARK_INDENT), Blanks(MARK_INDENT + MARK_WRAP_PAD))
  {
    var head, cont := Blanks(MARK_INDENT), Blanks(MARK_INDENT + MARK_WRAP_PAD);
    ghost var first, rest := SCREEN_WIDTH - MARK_INDENT, SCREEN_WIDTH - MARK_INDENT - MARK_WRAP_PAD;
    if ws != [] {
      FillFromFirst(Runes, head, cont, ws, first, rest);
    }
    out := [];
    var prefix, cur := head, "";
    var i := 0;
    while i < |ws|
      invariant i <= |ws| && (i == 0 <==> cur == "") && (i == 0 ==> out == [] && prefix == head)
      invariant prefix == head || prefix == cont
      invariant i > 0 ==> out + Fill(Runes, prefix, cont, cur, ws[i..], SCREEN_WIDTH - |prefix|, rest)
                            == Fill(Runes, head, cont, ws[0], ws[1..], first, rest)
    {
      var word := ws[i];
      assert i > 0 ==> ws[i..][1..] == ws[i + 1..];
      if cur == "" {
        cur := word;
      } else if |prefix| + |cur| + 1 + |word| > SCREEN_WIDTH {
        out := out + [prefix + cur];
        prefix, cur := cont, word;
      } else {
        cur := cur + " " + word;
      }
      i := i + 1;
    }
    if cur != "" {
      out := out + [prefix + cur];
    }
  }

  /** No mark line starts left of column 21, every line fits the screen unless it is a
      single word that cannot, and the words come out whole and in order. */
  lemma MarkLinesFit(mark: string, i: nat)
    requires i < |MarkLines(mark)|
    ensures var line := Rendered(MarkLines(mark), Blanks(MARK_INDENT), Blanks(MARK_INDENT + MARK_WRAP_PAD))[i];
            && |line| >= 21 && (forall k :: 0 <= k < (if i == 0 then 21 else 23) ==> line[k] == ' ')
            && (|line| <= 80 || |MarkLines(mark)[i]| == 1)
    ensures Flatten(MarkLines(mark)) == Fields(mark)
  {
    GreedyBreaks(Runes, Fields(mark), SCREEN_WIDTH - MARK_INDENT, SCREEN_WIDTH - MARK_INDENT - MARK_WRAP_PAD);
    assert LineOk(Runes, MarkLines(mark)[i],
                  if i == 0 then SCREEN_WIDTH - MARK_INDENT else SCREEN_WIDTH - MARK_INDENT - MARK_WRAP_PAD);
  }

  // ---- wrapGraftField --------------------------------------------------------------------------

  const GRAFT_INDENT: nat := 12

  // The label stands before the first word without a space of the wrapper's own.
  function Labelled(tag: string, ws: seq<Word>): seq<Word>
    requires ws != []
  {
    [tag + ws[0]] + ws[1..]
  }

  function TrimRight(s: string): string { if s != "" && s[|s| - 1] == ' ' then TrimRight(s[..|s| - 1]) else s }

  method WrapGraftField(tag: string, text: string) returns (out: seq<string>)
    ensures var indent, room := Blanks(12), 68;
            out == if Fields(text) == [] then [indent + TrimRight(tag)]
                   else Rendered(Greedy(Runes, Labelled(tag, Fields(text)), room, room), indent, indent)
  {
    var words := Fields(text);
    if words == [] {
      return [Blanks(GRAFT_INDENT) + TrimRight(tag)];
    }
    out := FillGraftField(Labelled(tag, words));
  }

  method FillGraftField(words: seq<Word>) returns (out: seq<string>)
    requires words != []
    ensures var indent, room := Blanks(GRAFT_INDENT), SCREEN_WIDTH - GRAFT_INDENT;
            out == Rendered(Greedy(Runes, words, room, room), indent, indent)
  {
    var indent := Blanks(GRAFT_INDENT);
    ghost var room := SCREEN_WIDTH - GRAFT_INDENT;
    FillFromFirst(Runes, indent, indent, words, room, room);
    out := [];
    var cur := words[0];
    var i := 1;
    while i < |words|
      invariant 1 <= i <= |words|
      invariant out + Fill(Runes, indent, indent, cur, words[i..], room, room)
                == Fill(Runes, indent, indent, words[0], words[1..], room, room)
    {
      var w := words[i];
      assert words[i..][1..] == words[i + 1..];
      var candidate := cur + " " + w;
      if |indent| + |candidate| > SCREEN_WIDTH {
        out := out + [indent + cur];
        cur := w;
      } else {
        cur := candidate;
      }
      i := i + 1;
    }
    out := out + [indent + cur];
  }
}
