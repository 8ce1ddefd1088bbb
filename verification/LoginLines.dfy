/**
 The login bridge's line reader: a buffer of fixed size over an endless FIFO, against
 "split on newlines and drop the long ones".
 */
module LoginLines {
  import Utf8

  type Line = seq<Utf8.Byte>

  const NEWLINE: Utf8.Byte := 10

  const MAX_LINE: nat := 4096
  const BUFFER: nat := MAX_LINE + 1
  const PRINTED: nat := 5

  // ---- the reference -----------------------------------------------------------------

  // How many bytes before the first newline.
  function LineLength(s: Line): (n: nat)
    ensures n <= |s| && NEWLINE !in s[..n] && (n < |s| ==> s[n] == NEWLINE)
  {
    if s == [] || s[0] == NEWLINE then 0
    else
      var n := LineLength(s[1..]);
      assert s[..n + 1] == [s[0]] + s[1..][..n];
      1 + n
  }

  lemma {:induction false} NewlineAt(line: Line, rest: Line)
    requires NEWLINE !in line
    ensures LineLength(line + [NEWLINE] + rest) == |line|
  {
    var s := line + [NEWLINE] + rest;
    if line != [] {
      assert s[0] == line[0] && line[0] in line;
      assert s[1..] == line[1..] + [NEWLINE] + rest;
      NewlineAt(line[1..], rest);
    }
  }

  // The newline-terminated segments, newlines dropped.
  function Segments(s: Line): seq<Line>
    decreases |s|
  {
    var n := LineLength(s);
    if n == |s| then [] else [s[..n]] + Segments(s[n + 1..])
  }

  // What stands after the last newline.
  function Unfinished(s: Line): Line
    decreases |s|
  {
    var n := LineLength(s);
    if n == |s| then s else Unfinished(s[n + 1..])
  }

  datatype Event = Passed(line: Line) | TooLong

  function EventOf(segment: Line): Event { if |segment| <= MAX_LINE then Passed(segment) else TooLong }

  /** One event a segment, in order; an unfinished segment that is already too long is
      refused without waiting for its newline. */
  function Events(s: Line): seq<Event>
    decreases |s|
  {
    var n := LineLength(s);
    if n < |s| then [EventOf(s[..n])] + Events(s[n + 1..])
    else if n > MAX_LINE then [TooLong]
    else []
  }

  function Judged(segments: seq<Line>): seq<Event> {
    if segments == [] then [] else [EventOf(segments[0])] + Judged(segments[1..])
  }

  lemma AppendAssociates(a: seq<Event>, b: seq<Event>, c: seq<Event>)
    ensures (a + b) + c == a + (b + c)
  {
  }

  lemma JudgedFirst(segment: Line, segments: seq<Line>)
    ensures Judged([segment] + segments) == [EventOf(segment)] + Judged(segments)
  {
    assert ([segment] + segments)[1..] == segments;
  }

  /** Split on newlines and drop the long ones: the events are the segments' own, and one
      more when what follows the last newline is already too long. */
  lemma {:induction false} EventsAreTheSegments(s: Line)
    ensures Events(s) == Judged(Segments(s)) + if |Unfinished(s)| > 4096 then [TooLong] else []
    decreases |s|
  {
    var n := LineLength(s);
    if n < |s| {
      var rest := s[n + 1..];
      EventsAreTheSegments(rest);
      JudgedFirst(s[..n], Segments(rest));
      AppendAssociates([EventOf(s[..n])], Judged(Segments(rest)),
                       if |Unfinished(rest)| > MAX_LINE then [TooLong] else []);
    }
  }

  // Each segment's own event: passed on whole if it has at most 4096 bytes.
  lemma {:induction false} JudgedAt(segments: seq<Line>, i: nat)
    requires i < |segments|
    ensures |Judged(segments)| == |segments|
    ensures Judged(segments)[i] == if |segments[i]| <= 4096 then Passed(segments[i]) else TooLong
  {
    if i > 0 {
      JudgedAt(segments[1..], i - 1);
    } else if |segments| > 1 {
      JudgedAt(segments[1..], 0);
    }
  }

  function Rejoin(segments: seq<Line>, tail: Line): Line {
    if segments == [] then tail else segments[0] + [10] + Rejoin(segments[1..], tail)
  }

  lemma {:induction false} NoNewline(s: Line)
    requires NEWLINE !in s
    ensures LineLength(s) == |s|
  {
    if s != [] {
      NoNewline(s[1..]);
    }
  }

  /** The segments really are the stream cut at its newlines: whatever lines are written,
      each followed by a newline, are the segments read. */
  lemma {:induction false} WrittenLinesAreRead(segments: seq<Line>, tail: Line)
    requires (forall i :: 0 <= i < |segments| ==> 10 !in segments[i]) && 10 !in tail
    ensures Segments(Rejoin(segments, tail)) == segments && Unfinished(Rejoin(segments, tail)) == tail
  {
    if segments == [] {
      NoNewline(tail);
    } else {
      var rest := Rejoin(segments[1..], tail);
      var s := segments[0] + [10] + rest;
      WrittenLinesAreRead(segments[1..], tail);
      NewlineAt(segments[0], rest);
      assert s[|segments[0]| + 1..] == rest && s[..|segments[0]|] == segments[0];
    }
  }

  // ---- bufio.Reader.ReadSlice ------------------------------------------------------------

  // A chunk up to and with the newline; a full buffer without one; or the end.
  datatype Read = Slice(chunk: Line) | BufferFull | Closed

  function ReadSlice(rest: Line): Read {
    var n := LineLength(rest);
    if n < |rest| && n < BUFFER then Slice(rest[..n + 1])
    else if |rest| >= BUFFER then BufferFull
    else Closed
  }

  // ---- the reader ----------------------------------------------------------------------

  // What is still to come when overlong bytes of the current segment are gone already.
  function Remaining(rest: Line, overlong: bool): seq<Event>
    decreases |rest|
  {
    if !overlong then Events(rest)
    else
      var n := LineLength(rest);
      if n == |rest| then [] else Events(rest[n + 1..])
  }

  // Dropping newline-free bytes off the front does not move the newline.
  lemma {:induction false} LineLengthDrops(s: Line, k: nat)
    requires k <= LineLength(s)
    ensures LineLength(s[k..]) == LineLength(s) - k
  {
    if k > 0 {
      assert s[0] != NEWLINE;
      LineLengthDrops(s[1..], k - 1);
      assert s[1..][k - 1..] == s[k..];
    }
  }

  // What one ReadSlice adds, and what is left to read after it.
  function Adds(rest: Line, overlong: bool): seq<Event> {
    match ReadSlice(rest)
    case BufferFull => if overlong then [] else [TooLong]
    case Slice(chunk) => if overlong then [] else [Passed(chunk[..|chunk| - 1])]
    case Closed => []
  }

  // An over-long segment is one refusal and then nothing until its newline.
  lemma LongSegment(rest: Line)
    requires LineLength(rest) > MAX_LINE
    ensures Events(rest) == [TooLong] + Remaining(rest, true)
  {
  }

  // Skipping the rest of an over-long segment, whose newline is at n, if it has one.
  lemma Skipped(rest: Line, n: nat, after: Line)
    requires n == LineLength(rest) && (n < |rest| ==> after == rest[n + 1..])
    ensures Remaining(rest, true) == if n < |rest| then Events(after) else []
  {
  }

  lemma SameAfter(rest: Line, later: Line, k: nat, n: nat)
    requires k <= n < |rest| && later == rest[k..]
    ensures later[n - k + 1..] == rest[n + 1..]
  {
  }

  // It can be done in pieces.
  lemma SkipOn(rest: Line, later: Line, k: nat)
    requires k <= LineLength(rest) && later == rest[k..]
    ensures Remaining(rest, true) == Remaining(later, true)
  {
    var n := LineLength(rest);
    LineLengthDrops(rest, k);
    if n < |rest| {
      SameAfter(rest, later, k, n);
      Skipped(rest, n, rest[n + 1..]);
      Skipped(later, n - k, rest[n + 1..]);
    } else {
      Skipped(rest, n, []);
      Skipped(later, n - k, []);
    }
  }

  lemma FullBuffer(rest: Line, overlong: bool)
    requires ReadSlice(rest).BufferFull?
    ensures Remaining(rest, overlong) == Adds(rest, overlong) + Remaining(rest[BUFFER..], true)
  {
    SkipOn(rest, rest[BUFFER..], BUFFER);
    LongSegment(rest);
  }

  lemma WholeLine(rest: Line, overlong: bool)
    requires ReadSlice(rest).Slice?
    ensures Remaining(rest, overlong) ==
              Adds(rest, overlong) + Remaining(rest[|ReadSlice(rest).chunk|..], false)
  {
    var n := LineLength(rest);
    assert rest[..n + 1][..n] == rest[..n];
  }

  lemma AtEnd(rest: Line, overlong: bool)
    requires ReadSlice(rest).Closed?
    ensures Remaining(rest, overlong) == []
  {
  }

  // The reader's state between two reads.
  datatype Reader = Reader(rest: Line, overlong: bool)

  // One ReadSlice and what the loop does about it.
  method ReadOne(r: Reader) returns (next: Reader, added: seq<Event>, closed: bool)
    ensures closed <==> ReadSlice(r.rest).Closed?
    ensures closed ==> next == r && added == [] && Remaining(r.rest, r.overlong) == []
    ensures !closed ==>
              && Remaining(r.rest, r.overlong) == added + Remaining(next.rest, next.overlong)
              && |next.rest| < |r.rest|
  {
    match ReadSlice(r.rest) {
      case BufferFull =>
        FullBuffer(r.rest, r.overlong);
        return Reader(r.rest[BUFFER..], true), if r.overlong then [] else [TooLong], false;
      case Closed =>
        AtEnd(r.rest, r.overlong);
        return r, [], true;
      case Slice(chunk) =>
        WholeLine(r.rest, r.overlong);
        return Reader(r.rest[|chunk|..], false), if r.overlong then [] else [Passed(chunk[..|chunk| - 1])], false;
    }
  }

  /** The reader with its 4097-byte buffer does exactly what the reference says, however
      the buffer falls across the segments. */
  method ReadLoginLines(stream: Line) returns (events: seq<Event>)
    ensures events == Events(stream)
  {
    events := [];
    var r, closed := Reader(stream, false), false;
    ghost var toCome := Remaining(stream, false);
    while !closed
      invariant events + toCome == Events(stream)
      invariant toCome == if closed then [] else Remaining(r.rest, r.overlong)
      decreases |r.rest|, !closed
    {
      var added;
      r, added, closed := ReadOne(r);
      ghost var after := if closed then [] else Remaining(r.rest, r.overlong);
      AppendAssociates(events, added, after);
      events, toCome := events + added, after;
    }
  }

  // ---- what is printed ---------------------------------------------------------------------

  datatype Message = Refused | Suppressed

  // The messages n refusals leave on stderr.
  function Messages(n: nat): seq<Message> {
    seq(if n < PRINTED then n else PRINTED, _ => Refused) + if n > PRINTED then [Suppressed] else []
  }

  // Whether a line that was passed on is refused by the parser or by the handler.
  method Report(events: seq<Event>, refused: Line -> bool) returns (stderr: seq<Message>, refusals: nat)
    ensures refusals == |set i | 0 <= i < |events| && (events[i].TooLong? || refused(events[i].line))|
    ensures |stderr| == if refusals <= 5 then refusals else 6
    ensures forall i :: 0 <= i < |stderr| ==> stderr[i] == if i < 5 then Refused else Suppressed
  {
    stderr, refusals := [], 0;
    var i := 0;
    while i < |events|
      invariant i <= |events| && refusals == Refusals(events[..i], refused) && stderr == Messages(refusals)
    {
      assert events[..i + 1][..i] == events[..i];
      if events[i].TooLong? || refused(events[i].line) {
        refusals := refusals + 1;
        if refusals <= PRINTED {
          stderr := stderr + [Refused];
        } else if refusals == PRINTED + 1 {
          stderr := stderr + [Suppressed];
        }
      }
      i := i + 1;
    }
    assert events[..i] == events;
    RefusalsCount(events, refused);
  }

  lemma {:induction false} RefusalsCount(events: seq<Event>, refused: Line -> bool)
    ensures Refusals(events, refused) == |set i | 0 <= i < |events| && (events[i].TooLong? || refused(events[i].line))|
  {
    var all := set i | 0 <= i < |events| && (events[i].TooLong? || refused(events[i].line));
    if events != [] {
      var n := |events| - 1;
      RefusalsCount(events[..n], refused);
      var before := set i | 0 <= i < n && (events[..n][i].TooLong? || refused(events[..n][i].line));
      assert before == all - {n};
    } else {
      assert all == {};
    }
  }

  function Refusals(events: seq<Event>, refused: Line -> bool): nat {
    if events == [] then 0
    else
      var last := events[|events| - 1];
      Refusals(events[..|events| - 1], refused) + if last.TooLong? || refused(last.line) then 1 else 0
  }
}
