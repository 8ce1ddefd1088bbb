/**
 The range `snug fix subuid` delegates: interval algebra over the ids a namespace maps.

 Ids and counts are uint64, and sums wrap; the results are exact as long as no mapped
 run reaches past the last id, and no map the kernel writes does.
 */
module IdMap {
  import opened Options
  import opened Strings

  const WIDTH: nat := 0x1_0000_0000_0000_0000

  type U64 = n: nat | n < WIDTH

  datatype Interval = Interval(start: U64, count: U64)

  function Wrap(n: nat): U64 { n % WIDTH }

  // uint64 subtraction.
  function Minus(a: U64, b: U64): U64 { if a >= b then a - b else a + WIDTH - b }

  // uint64 start + count, as the code computes it.
  function End(iv: Interval): U64 { Wrap(iv.start + iv.count) }

  // The run lies within the ids there are, and its end is representable.
  predicate Fits(iv: Interval) { iv.start + iv.count < WIDTH && iv.count > 0 }

  predicate Has(iv: Interval, id: nat) { iv.start <= id < iv.start + iv.count }

  // The ids a list of runs denotes.
  predicate Denotes(ivs: seq<Interval>, id: nat) { exists i :: 0 <= i < |ivs| && Has(ivs[i], id) }

  ghost predicate AllFit(ivs: seq<Interval>) { forall i :: 0 <= i < |ivs| ==> Fits(ivs[i]) }

  // Ascending maximal runs: between one and the next at least one id is missing.
  ghost predicate Canonical(ivs: seq<Interval>) {
    AllFit(ivs) && forall i, j :: 0 <= i < j < |ivs| ==> ivs[i].start + ivs[i].count < ivs[j].start
  }

  ghost predicate SortedByStart(ivs: seq<Interval>) {
    forall i, j :: 0 <= i < j < |ivs| ==> ivs[i].start <= ivs[j].start
  }

  // ---- merging -------------------------------------------------------------------------

  // sort.Slice: any permutation in start order; the sort is in place and not stable.
  method SortByStart(a: array<Interval>)
    modifies a
    ensures SortedByStart(a[..]) && multiset(a[..]) == multiset(old(a[..]))
  {
    var n := 0;
    while n < a.Length
      invariant n <= a.Length && SortedByStart(a[..n]) && multiset(a[..]) == multiset(old(a[..]))
    {
      Insert(a, n);
      n := n + 1;
    }
    assert a[..n] == a[..];
  }

  lemma SwapPermutes(s: seq<Interval>, j: nat)
    requires 0 < j < |s|
    ensures multiset(s[j - 1 := s[j]][j := s[j - 1]]) == multiset(s)
  {
  }

  method SwapDown(a: array<Interval>, j: nat)
    requires 0 < j < a.Length
    modifies a
    ensures a[..] == old(a[..])[j - 1 := old(a[j])][j := old(a[j - 1])]
    ensures multiset(a[..]) == multiset(old(a[..]))
  {
    SwapPermutes(a[..], j);
    a[j - 1], a[j] := a[j], a[j - 1];
  }

  // Sink element n into the sorted prefix before it.
  method Insert(a: array<Interval>, n: nat)
    requires n < a.Length && SortedByStart(a[..n])
    modifies a
    ensures SortedByStart(a[..n + 1]) && multiset(a[..]) == multiset(old(a[..]))
  {
    var j := n;
    while j > 0 && a[j - 1].start > a[j].start
      invariant j <= n && multiset(a[..]) == multiset(old(a[..]))
      invariant forall p, q :: 0 <= p < q <= n && q != j ==> a[p].start <= a[q].start
    {
      ghost var before := a[..];
      SwapDown(a, j);
      assert forall k :: 0 <= k < a.Length ==> a[k] == a[..][k];
      j := j - 1;
    }
  }

  method MergeIntervals(a: array<Interval>) returns (out: seq<Interval>)
    modifies a
    ensures old(AllFit(a[..])) ==>
              Canonical(out) && forall id: nat :: Denotes(out, id) <==> old(Denotes(a[..], id))
  {
    if a.Length == 0 {
      return [];
    }
    ghost var fits := AllFit(a[..]);
    ghost var input := a[..];
    SortByStart(a);
    ghost var s := a[..];
    if fits {
      SameElements(input, s);
    }
    out := [a[0]];
    var i := 1;
    while i < a.Length
      invariant 1 <= i <= a.Length && out != [] && a[..] == s
      invariant fits ==> Merged(out, s[..i])
    {
      var iv, last := a[i], out[|out| - 1];
      ghost var before := out;
      if iv.start <= End(last) {
        if End(iv) > End(last) {
          out := out[|out| - 1 := Interval(last.start, Minus(End(iv), last.start))];
        }
      } else {
        out := out + [iv];
      }
      if fits {
        assert s[..i + 1] == s[..i] + [iv];
        MergeStep(before, s[..i], iv, out);
      }
      i := i + 1;
    }
    assert s[..i] == s;
  }

  // The loop invariant: out is the canonical form of the runs taken so far.
  ghost predicate Merged(out: seq<Interval>, done: seq<Interval>) {
    && Canonical(out) && out != [] && done != []
    && (forall id: nat :: Denotes(out, id) <==> Denotes(done, id))
    && out[|out| - 1].start <= done[|done| - 1].start
  }

  lemma EndOfFit(iv: Interval)
    requires Fits(iv)
    ensures End(iv) == iv.start + iv.count
  {
  }

  // A run that leaves a gap starts a new one.
  lemma MergeApart(out: seq<Interval>, done: seq<Interval>, iv: Interval)
    requires Merged(out, done) && Fits(iv) && out[|out| - 1].start + out[|out| - 1].count < iv.start
    ensures Merged(out + [iv], done + [iv])
  {
    DenotesAppend(done, iv);
    DenotesAppend(out, iv);
  }

  lemma MergeStep(out: seq<Interval>, done: seq<Interval>, iv: Interval, next: seq<Interval>)
    requires Merged(out, done) && Fits(iv) && done[|done| - 1].start <= iv.start
    requires var last := out[|out| - 1];
             next == if iv.start > End(last) then out + [iv]
                     else if End(iv) > End(last) then
                       out[|out| - 1 := Interval(last.start, Minus(End(iv), last.start))]
                     else out
    ensures Merged(next, done + [iv])
  {
    var last := out[|out| - 1];
    assert Fits(last);
    EndOfFit(last);
    EndOfFit(iv);
    if iv.start > End(last) {
      MergeApart(out, done, iv);
    } else if End(iv) > End(last) {
      DenotesAppend(done, iv);
      LastGrows(out, iv, Interval(last.start, iv.start + iv.count - last.start));
    } else {
      DenotesAppend(done, iv);
      LastAbsorbs(out, iv);
    }
  }

  lemma SameElements(a: seq<Interval>, b: seq<Interval>)
    requires multiset(a) == multiset(b) && AllFit(a)
    ensures AllFit(b) && forall id: nat :: Denotes(a, id) <==> Denotes(b, id)
  {
    assert forall iv :: iv in a <==> iv in multiset(a);
    assert forall iv :: iv in b <==> iv in multiset(b);
    forall i | 0 <= i < |b| ensures Fits(b[i]) { assert b[i] in a; }
    forall id: nat ensures Denotes(a, id) <==> Denotes(b, id) {
      if Denotes(a, id) {
        var i :| 0 <= i < |a| && Has(a[i], id);
        assert a[i] in b;
      }
      if Denotes(b, id) {
        var i :| 0 <= i < |b| && Has(b[i], id);
        assert b[i] in a;
      }
    }
  }

  lemma DenotesAppend(ivs: seq<Interval>, iv: Interval)
    ensures forall id: nat :: Denotes(ivs + [iv], id) <==> Denotes(ivs, id) || Has(iv, id)
  {
    forall id: nat ensures Denotes(ivs + [iv], id) <==> Denotes(ivs, id) || Has(iv, id) {
      if Denotes(ivs, id) {
        var i :| 0 <= i < |ivs| && Has(ivs[i], id);
        assert Has((ivs + [iv])[i], id);
      }
      if Has(iv, id) {
        assert Has((ivs + [iv])[|ivs|], id);
      }
    }
  }

  // An overlapping or adjacent run that ends later stretches the last one.
  lemma LastGrows(out: seq<Interval>, iv: Interval, grown: Interval)
    requires out != [] && Canonical(out) && Fits(iv)
    requires var last := out[|out| - 1];
             && last.start <= iv.start <= last.start + last.count < iv.start + iv.count
             && grown == Interval(last.start, iv.start + iv.count - last.start)
    ensures Canonical(out[|out| - 1 := grown])
    ensures forall id: nat :: Denotes(out[|out| - 1 := grown], id) <==> Denotes(out, id) || Has(iv, id)
  {
    var n := |out| - 1;
    var next := out[n := grown];
    forall id: nat ensures Denotes(next, id) <==> Denotes(out, id) || Has(iv, id) {
      assert Has(grown, id) <==> Has(out[n], id) || Has(iv, id);
      assert forall i :: 0 <= i < n ==> next[i] == out[i];
      if Denotes(out, id) {
        var i :| 0 <= i < |out| && Has(out[i], id);
        assert Has(next[i], id);
      }
      if Has(iv, id) {
        assert Has(next[n], id);
      }
    }
  }

  // One that ends no later is already there.
  lemma LastAbsorbs(out: seq<Interval>, iv: Interval)
    requires out != [] && out[|out| - 1].start <= iv.start
    requires iv.start + iv.count <= out[|out| - 1].start + out[|out| - 1].count
    ensures forall id: nat :: Has(iv, id) ==> Denotes(out, id)
  {
    forall id: nat | Has(iv, id) ensures Denotes(out, id) {
      assert Has(out[|out| - 1], id);
    }
  }

  // ---- canonical forms are unique ------------------------------------------------------------

  // The first run is what is denoted from the least id to the first gap.
  lemma FirstRun(a: seq<Interval>)
    requires Canonical(a) && a != []
    ensures forall id: nat :: id < a[0].start + a[0].count ==> (Denotes(a, id) <==> a[0].start <= id)
    ensures !Denotes(a, a[0].start + a[0].count) && a[0].count > 0
  {
    assert Fits(a[0]);
    assert forall i :: 0 < i < |a| ==> a[0].start + a[0].count < a[i].start;
    forall id: nat | a[0].start <= id < a[0].start + a[0].count ensures Denotes(a, id) {
      assert Has(a[0], id);
    }
  }

  // Where two canonical lists start the same they go on the same.
  lemma FirstRunAgrees(a: seq<Interval>, b: seq<Interval>)
    requires Canonical(a) && Canonical(b) && a != []
    requires forall id: nat :: Denotes(a, id) <==> Denotes(b, id)
    ensures b != [] && a[0] == b[0]
  {
    FirstRun(a);
    assert Denotes(b, a[0].start);
    FirstRun(b);
    var endA, endB := a[0].start + a[0].count, b[0].start + b[0].count;
    assert Denotes(a, b[0].start) <==> Denotes(b, b[0].start);
    assert Denotes(a, endA) <==> Denotes(b, endA);
    assert Denotes(a, endB) <==> Denotes(b, endB);
  }

  lemma {:induction false} CanonicalIsUnique(a: seq<Interval>, b: seq<Interval>)
    requires Canonical(a) && Canonical(b)
    requires forall id: nat :: Denotes(a, id) <==> Denotes(b, id)
    ensures a == b
    decreases |a|
  {
    if a == [] {
      if b != [] {
        assert Fits(b[0]) && Has(b[0], b[0].start) && Denotes(b, b[0].start);
      }
    } else {
      FirstRunAgrees(a, b);
      forall id: nat ensures Denotes(a[1..], id) <==> Denotes(b[1..], id) {
        TailDenotes(a, id);
        TailDenotes(b, id);
      }
      CanonicalIsUnique(a[1..], b[1..]);
    }
  }

  lemma TailDenotes(a: seq<Interval>, id: nat)
    requires Canonical(a) && a != []
    ensures Denotes(a[1..], id) <==> Denotes(a, id) && !Has(a[0], id)
  {
    if Denotes(a[1..], id) {
      var i :| 0 <= i < |a| - 1 && Has(a[1..][i], id);
      assert Has(a[i + 1], id);
    }
    if Denotes(a, id) && !Has(a[0], id) {
      var i :| 0 <= i < |a| && Has(a[i], id);
      assert Has(a[1..][i - 1], id);
    }
  }

  // ---- punching one id out ---------------------------------------------------------------------

  function Punch(iv: Interval, id: U64): seq<Interval> {
    if id < iv.start || id >= End(iv) then [iv]
    else
      var before, after := id - iv.start, Minus(Minus(End(iv), id), 1);
      (if before > 0 then [Interval(iv.start, before)] else []) +
      (if after > 0 then [Interval(Wrap(id + 1), after)] else [])
  }

  function Punched(ivs: seq<Interval>, id: U64): seq<Interval> {
    if ivs == [] then [] else Punched(ivs[..|ivs| - 1], id) + Punch(ivs[|ivs| - 1], id)
  }

  method PunchOne(iv: Interval, id: U64) returns (out: seq<Interval>)
    ensures out == Punch(iv, id)
  {
    if id < iv.start || id >= End(iv) {
      return [iv];
    }
    out := [];
    var before := id - iv.start;
    if before > 0 {
      out := out + [Interval(iv.start, before)];
    }
    var after := Minus(Minus(End(iv), id), 1);
    if after > 0 {
      out := out + [Interval(Wrap(id + 1), after)];
    }
  }

  method WithoutID(ivs: seq<Interval>, id: U64) returns (out: seq<Interval>)
    ensures out == Punched(ivs, id)
  {
    out := [];
    var i := 0;
    while i < |ivs|
      invariant i <= |ivs| && out == Punched(ivs[..i], id)
    {
      assert ivs[..i + 1][..i] == ivs[..i];
      var pieces := PunchOne(ivs[i], id);
      out := out + pieces;
      i := i + 1;
    }
    assert ivs[..i] == ivs;
  }

  /** One run loses exactly the id, unless it reaches past the last id and holds it: its
      end has then wrapped around and the run is kept whole. */
  lemma PunchIsExactIff(iv: Interval, id: U64)
    requires iv.count > 0
    ensures (forall x: nat :: Denotes(Punch(iv, id), x) <==> Has(iv, x) && x != id) <==> Fits(iv) || !Has(iv, id)
  {
    var out := Punch(iv, id);
    if !Fits(iv) {
      assert out == [iv];
      assert Has(iv, id) ==> Denotes(out, id) by { assert out[0] == iv; }
    }
    if Fits(iv) || !Has(iv, id) {
      forall x: nat ensures Denotes(out, x) <==> Has(iv, x) && x != id {
        if Has(iv, x) && x != id {
          assert Has(out[0], x) || Has(out[|out| - 1], x);
        }
      }
    }
  }

  lemma DenotesConcat(a: seq<Interval>, b: seq<Interval>, id: nat)
    ensures Denotes(a + b, id) <==> Denotes(a, id) || Denotes(b, id)
  {
    if Denotes(a, id) {
      var i :| 0 <= i < |a| && Has(a[i], id);
      assert Has((a + b)[i], id);
    }
    if Denotes(b, id) {
      var i :| 0 <= i < |b| && Has(b[i], id);
      assert Has((a + b)[|a| + i], id);
    }
  }

  lemma PunchShape(iv: Interval, id: U64)
    requires Fits(iv)
    ensures var out := Punch(iv, id);
            Canonical(out) && forall i :: 0 <= i < |out| ==>
              iv.start <= out[i].start && out[i].start + out[i].count <= iv.start + iv.count
  {
    EndOfFit(iv);
  }

  // Appending runs that lie beyond everything so far keeps the form.
  lemma CanonicalConcat(a: seq<Interval>, b: seq<Interval>, edge: nat)
    requires Canonical(a) && Canonical(b)
    requires forall i :: 0 <= i < |a| ==> a[i].start + a[i].count < edge
    requires forall i :: 0 <= i < |b| ==> edge <= b[i].start
    ensures Canonical(a + b)
  {
  }

  lemma {:induction false} PunchedIsCanonical(ivs: seq<Interval>, id: U64)
    requires Canonical(ivs)
    ensures Canonical(Punched(ivs, id))
    ensures forall i :: 0 <= i < |Punched(ivs, id)| ==>
              var p := Punched(ivs, id)[i];
              ivs != [] && p.start + p.count <= ivs[|ivs| - 1].start + ivs[|ivs| - 1].count
  {
    if ivs != [] {
      var n := |ivs| - 1;
      PunchedIsCanonical(ivs[..n], id);
      assert Fits(ivs[n]);
      PunchShape(ivs[n], id);
      assert n > 0 ==> ivs[n - 1].start + ivs[n - 1].count < ivs[n].start;
      CanonicalConcat(Punched(ivs[..n], id), Punch(ivs[n], id), ivs[n].start);
    }
  }

  /** Punching keeps the canonical form and removes exactly that id. */
  lemma {:induction false} PunchedIsExact(ivs: seq<Interval>, id: U64)
    requires Canonical(ivs)
    ensures Canonical(Punched(ivs, id))
    ensures forall x: nat :: Denotes(Punched(ivs, id), x) <==> Denotes(ivs, x) && x != id
  {
    PunchedIsCanonical(ivs, id);
    if ivs != [] {
      var n := |ivs| - 1;
      var iv := ivs[n];
      PunchedIsExact(ivs[..n], id);
      assert Fits(iv);
      PunchIsExactIff(iv, id);
      forall x: nat ensures Denotes(Punched(ivs, id), x) <==> Denotes(ivs, x) && x != id {
        DenotesConcat(Punched(ivs[..n], id), Punch(iv, id), x);
        DenotesAppend(ivs[..n], iv);
        assert ivs == ivs[..n] + [iv];
      }
    }
  }

  // ---- the map's text ------------------------------------------------------------------------

  // The namespace column of one line; None for a line that is not three fields with two numbers.
  function ParseLine(line: string): Option<Interval> {
    var f := Fields(line);
    if |f| != 3 then None
    else
      var start, count := ParseUint64(f[0]), ParseUint64(f[2]);
      if start.None? || count.None? || count.value == 0 then None
      else Some(Interval(start.value, count.value))
  }

  function ParseLines(lines: seq<string>): seq<Interval> {
    if lines == [] then []
    else OfLine(lines[0]) + ParseLines(lines[1..])
  }

  // The run a line adds, if it is one.
  function OfLine(line: string): seq<Interval> { match ParseLine(line) case None => [] case Some(iv) => [iv] }

  lemma ParseLinesStep(lines: seq<string>, i: nat)
    requires i < |lines|
    ensures ParseLines(lines[i..]) == OfLine(lines[i]) + ParseLines(lines[i + 1..])
  {
    assert lines[i..][1..] == lines[i + 1..];
  }

  lemma AppendRuns(a: seq<Interval>, b: seq<Interval>, c: seq<Interval>)
    ensures (a + b) + c == a + (b + c)
  {
  }

  method ParseIDMapNS(content: string) returns (out: seq<Interval>)
    ensures out == ParseLines(Split(content, '\n'))
  {
    out := [];
    var lines := Split(content, '\n');
    var i := 0;
    while i < |lines|
      invariant i <= |lines| && out + ParseLines(lines[i..]) == ParseLines(lines)
    {
      ParseLinesStep(lines, i);
      AppendRuns(out, OfLine(lines[i]), ParseLines(lines[i + 1..]));
      out := out + OfLine(lines[i]);
      i := i + 1;
    }
  }

  // One line as the kernel prints it: three right-aligned columns.
  datatype MapLine = MapLine(ns: U64, host: U64, count: U64, pads: (nat, nat, nat))

  function Spaces(n: nat): string { seq(n, _ => ' ') }

  function Render(m: MapLine): string {
    Spaces(m.pads.0) + (Decimal(m.ns) + (Spaces(1 + m.pads.1) + (Decimal(m.host) +
      (Spaces(1 + m.pads.2) + Decimal(m.count)))))
  }

  // One padded column, and what follows it.
  lemma ColumnReads(pad: nat, n: nat, rest: string)
    requires rest != "" ==> IsSpace(rest[0])
    ensures Fields(Spaces(pad) + (Decimal(n) + rest)) == [Decimal(n)] + Fields(rest)
  {
    DecimalIsWord(n);
    FieldsSkip(Spaces(pad), Decimal(n) + rest);
    FieldsWord(Decimal(n), rest);
  }

  lemma RenderedFields(m: MapLine)
    ensures Fields(Render(m)) == [Decimal(m.ns), Decimal(m.host), Decimal(m.count)]
  {
    var last := Spaces(1 + m.pads.2) + Decimal(m.count);
    var rest := Spaces(1 + m.pads.1) + (Decimal(m.host) + last);
    assert Decimal(m.count) + "" == Decimal(m.count);
    ColumnReads(1 + m.pads.2, m.count, "");
    ColumnReads(1 + m.pads.1, m.host, last);
    ColumnReads(m.pads.0, m.ns, rest);
  }

  /** Whatever the kernel prints for a map line is read back: the namespace start and the
      count, and nothing for an empty run. */
  lemma RenderedLineParses(m: MapLine)
    ensures ParseLine(Render(m)) == if m.count == 0 then None else Some(Interval(m.ns, m.count))
  {
    RenderedFields(m);
    DecimalIsWord(m.ns);
    DecimalIsWord(m.count);
  }

  /** A line is a run exactly when it has three columns, of which the first and the last are
      64-bit numbers, the last not zero. */
  lemma LineIsRunIff(line: string)
    ensures var f := Fields(line);
            ParseLine(line).Some? <==>
              && |f| == 3 && ParseUint64(f[0]).Some? && ParseUint64(f[2]).Some? && ParseUint64(f[2]) != Some(0)
  {
  }

  lemma RenderIsOneLine(m: MapLine)
    ensures '\n' !in Render(m)
  {
    NoNewlineIn(Decimal(m.ns));
    NoNewlineIn(Decimal(m.host));
    NoNewlineIn(Decimal(m.count));
  }

  lemma NoNewlineIn(digits: string)
    requires AllDigits(digits)
    ensures '\n' !in digits
  {
    assert forall i :: 0 <= i < |digits| ==> IsDigit(digits[i]);
  }

  function MapText(ms: seq<MapLine>): seq<string> {
    seq(|ms|, i requires 0 <= i < |ms| => Render(ms[i]))
  }

  // The runs a map denotes, in the order of its lines; an empty one denotes nothing.
  function Runs(ms: seq<MapLine>): seq<Interval> {
    if ms == [] then [] else (if ms[0].count == 0 then [] else [Interval(ms[0].ns, ms[0].count)]) + Runs(ms[1..])
  }

  lemma {:induction false} LinesParse(ms: seq<MapLine>)
    ensures ParseLines(MapText(ms) + [""]) == Runs(ms)
  {
    var lines := MapText(ms) + [""];
    if ms == [] {
      assert lines == [""] && ParseLine("") == None;
    } else {
      RenderedLineParses(ms[0]);
      LinesParse(ms[1..]);
      assert lines[0] == Render(ms[0]) && lines[1..] == MapText(ms[1..]) + [""];
    }
  }

  // What the kernel's 32-bit map extents can hold.
  predicate Extent(m: MapLine) { m.ns < 0x1_0000_0000 && m.count < 0x1_0000_0000 }

  lemma {:induction false} ExtentsFit(ms: seq<MapLine>)
    requires forall i :: 0 <= i < |ms| ==> Extent(ms[i])
    ensures AllFit(Runs(ms))
  {
    if ms != [] {
      ExtentsFit(ms[1..]);
    }
  }

  /** Every map the kernel writes parses to exactly its runs, and none of them reaches past
      the last 64-bit id; so for each of them the suggestion is the right one. */
  lemma KernelMapFits(ms: seq<MapLine>)
    requires forall i :: 0 <= i < |ms| ==> Extent(ms[i])
    ensures var parsed := ParseLines(Split(Text(MapText(ms)), '\n')); parsed == Runs(ms) && AllFit(parsed)
  {
    forall l | l in MapText(ms) ensures '\n' !in l {
      var i :| 0 <= i < |ms| && l == Render(ms[i]);
      RenderIsOneLine(ms[i]);
    }
    TextSplits(MapText(ms));
    LinesParse(ms);
    ExtentsFit(ms);
  }

  // ---- the suggestion --------------------------------------------------------------------------

  const BASE: U64 := 100000
  const SIZE: U64 := 65536

  // What may be handed out: mapped here, and neither 0 nor the caller's own id.
  predicate Free(mapped: seq<Interval>, own: U64, id: nat) {
    Denotes(mapped, id) && id != 0 && id != own
  }

  ghost predicate AllFree(mapped: seq<Interval>, own: U64, from: nat, until: nat) {
    forall id: nat :: from <= id < until ==> Free(mapped, own, id)
  }

  /** The conventional range when all of it is free; else the highest maximal run of free
      ids, cut to the conventional size; nothing exactly when no id is free. */
  ghost predicate RightAnswer(mapped: seq<Interval>, own: U64, r: Option<Interval>) {
    if AllFree(mapped, own, 100000, 165536) then r == Some(Interval(100000, 65536))
    else match r
      case None => forall id: nat :: !Free(mapped, own, id)
      case Some(iv) =>
        exists end: nat :: HighestRun(mapped, own, iv.start, end)
          && iv.count == if end - iv.start < 65536 then end - iv.start else 65536
  }

  // [start, end) is a maximal run of free ids with none above it.
  ghost predicate HighestRun(mapped: seq<Interval>, own: U64, start: nat, end: nat) {
    && start < end && AllFree(mapped, own, start, end)
    && (start > 0 ==> !Free(mapped, own, start - 1))
    && forall id: nat :: id >= end ==> !Free(mapped, own, id)
  }

  lemma RunsApart(ivs: seq<Interval>, i: nat, j: nat)
    requires Canonical(ivs) && i < |ivs| && j < |ivs|
    ensures i < j ==> ivs[i].start + ivs[i].count < ivs[j].start
    ensures j < i ==> ivs[j].start + ivs[j].count < ivs[i].start
  {
  }

  // A block of free ids lies inside one run of the canonical form.
  lemma {:induction false} BlockInOneRun(free: seq<Interval>, from: nat, until: nat)
    requires Canonical(free) && from < until && forall id: nat :: from <= id < until ==> Denotes(free, id)
    ensures exists i :: 0 <= i < |free| && free[i].start <= from && until <= free[i].start + free[i].count
    decreases until
  {
    if until == from + 1 {
      assert Denotes(free, from);
      var i :| 0 <= i < |free| && Has(free[i], from);
    } else {
      BlockInOneRun(free, from, until - 1);
      var i :| 0 <= i < |free| && free[i].start <= from && until - 1 <= free[i].start + free[i].count;
      assert Denotes(free, until - 1);
      var j :| 0 <= j < |free| && Has(free[j], until - 1);
      assert Has(free[i], until - 2);
      RunsApart(free, i, j);
    }
  }

  lemma LastRunIsHighest(mapped: seq<Interval>, own: U64, free: seq<Interval>)
    requires Canonical(free) && free != []
    requires forall id: nat :: Denotes(free, id) <==> Free(mapped, own, id)
    ensures var last := free[|free| - 1]; HighestRun(mapped, own, last.start, last.start + last.count)
  {
    var n := |free| - 1;
    var last := free[n];
    assert Fits(last);
    assert forall i :: 0 <= i < n ==> free[i].start + free[i].count < last.start;
    forall id: nat | last.start <= id < last.start + last.count ensures Free(mapped, own, id) {
      assert Has(last, id) && Denotes(free, id);
    }
    forall id: nat | id >= last.start + last.count ensures !Free(mapped, own, id) {
      assert !Denotes(free, id);
    }
    if last.start > 0 {
      assert !Denotes(free, last.start - 1);
    }
  }

  method SubuidSuggestion(content: string, own: U64) returns (r: Option<Interval>)
    ensures var mapped := ParseLines(Split(content, '\n'));
            AllFit(mapped) ==> RightAnswer(mapped, own, r)
  {
    var parsed := ParseIDMapNS(content);
    var a := new Interval[|parsed|](i requires 0 <= i < |parsed| => parsed[i]);
    assert a[..] == parsed;
    ghost var fits := AllFit(parsed);
    var merged := MergeIntervals(a);
    var nonzero := WithoutID(merged, 0);
    var free := WithoutID(nonzero, own);
    if fits {
      PunchedIsExact(merged, 0);
      PunchedIsExact(nonzero, own);
      assert forall id: nat :: Denotes(free, id) <==> Free(parsed, own, id);
    }
    r := Choose(free);
    if fits {
      ChosenIsRight(parsed, own, free, r);
    }
  }

  // The two loops over the free runs.
  method Choose(free: seq<Interval>) returns (r: Option<Interval>)
    ensures (exists i :: 0 <= i < |free| && HoldsConvention(free[i])) ==> r == Some(Interval(BASE, SIZE))
    ensures !(exists i :: 0 <= i < |free| && HoldsConvention(free[i])) ==>
              if free == [] then r == None
              else exists k :: 0 <= k < |free| && r == Some(Capped(free[k])) && IsTop(free, k)
  {
    var i := 0;
    while i < |free|
      invariant i <= |free| && forall j :: 0 <= j < i ==> !HoldsConvention(free[j])
    {
      if HoldsConvention(free[i]) {
        return Some(Interval(BASE, SIZE));
      }
      i := i + 1;
    }
    if free == [] {
      return None;
    }
    var best := 0;
    i := 1;
    while i < |free|
      invariant 1 <= i <= |free| && best < i && IsTop(free[..i], best)
    {
      if free[i].start > free[best].start {
        best := i;
      }
      i := i + 1;
    }
    assert free[..i] == free;
    return Some(Capped(free[best]));
  }

  predicate HoldsConvention(iv: Interval) { iv.start <= BASE && BASE + SIZE <= End(iv) }

  function Capped(iv: Interval): Interval { if iv.count > SIZE then Interval(iv.start, SIZE) else iv }

  // The first run with the highest start.
  ghost predicate IsTop(free: seq<Interval>, k: nat) {
    k < |free| && forall j :: 0 <= j < |free| ==> free[j].start <= free[k].start
  }

  lemma ConventionFitsIff(mapped: seq<Interval>, own: U64, free: seq<Interval>)
    requires Canonical(free)
    requires forall id: nat :: Denotes(free, id) <==> Free(mapped, own, id)
    ensures AllFree(mapped, own, BASE, BASE + SIZE) <==> exists i :: 0 <= i < |free| && HoldsConvention(free[i])
  {
    if AllFree(mapped, own, BASE, BASE + SIZE) {
      forall id: nat | BASE <= id < BASE + SIZE ensures Denotes(free, id) {
        assert Free(mapped, own, id);
      }
      BlockInOneRun(free, BASE, BASE + SIZE);
      var i :| 0 <= i < |free| && free[i].start <= BASE && BASE + SIZE <= free[i].start + free[i].count;
      assert Fits(free[i]) && HoldsConvention(free[i]);
    }
    if i :| 0 <= i < |free| && HoldsConvention(free[i]) {
      assert Fits(free[i]);
      forall id: nat | BASE <= id < BASE + SIZE ensures Free(mapped, own, id) {
        assert Has(free[i], id) && Denotes(free, id);
      }
    }
  }

  // In a canonical list the top run is the last one.
  lemma TopIsLast(free: seq<Interval>, k: nat)
    requires Canonical(free) && IsTop(free, k)
    ensures k == |free| - 1
  {
    assert Fits(free[k]);
    RunsApart(free, k, |free| - 1);
  }

  lemma ChosenIsRight(mapped: seq<Interval>, own: U64, free: seq<Interval>, r: Option<Interval>)
    requires Canonical(free)
    requires forall id: nat :: Denotes(free, id) <==> Free(mapped, own, id)
    requires (exists i :: 0 <= i < |free| && HoldsConvention(free[i])) ==> r == Some(Interval(BASE, SIZE))
    requires !(exists i :: 0 <= i < |free| && HoldsConvention(free[i])) ==>
              if free == [] then r == None
              else exists k :: 0 <= k < |free| && r == Some(Capped(free[k])) && IsTop(free, k)
    ensures RightAnswer(mapped, own, r)
  {
    ConventionFitsIff(mapped, own, free);
    if !AllFree(mapped, own, BASE, BASE + SIZE) {
      if free == [] {
        forall id: nat ensures !Free(mapped, own, id) { assert !Denotes(free, id); }
      } else {
        var k :| 0 <= k < |free| && r == Some(Capped(free[k])) && IsTop(free, k);
        TopIsLast(free, k);
        LastRunIsHighest(mapped, own, free);
        assert HighestRun(mapped, own, free[k].start, free[k].start + free[k].count);
      }
    }
  }

  /** The limit of the arithmetic, on a line no kernel writes: a run that reaches past the
      last 64-bit id keeps the ids punched out of it. */
  lemma WrappedRunIsKept()
    ensures var iv := Interval(5, WIDTH - 1);
            var free := Punched(Punched([iv], 0), 1000);
            && !Fits(iv) && ParseLine(Render(MapLine(5, 0, WIDTH - 1, (0, 0, 0)))) == Some(iv)
            && free == [iv] && !HoldsConvention(iv) && Has(Capped(iv), 1000)
  {
    var iv := Interval(5, WIDTH - 1);
    RenderedLineParses(MapLine(5, 0, WIDTH - 1, (0, 0, 0)));
    assert End(iv) == 4;
    assert [iv][..0] == [];
    assert Punched([iv], 0) == [iv];
    assert Punched([iv], 1000) == [iv];
  }
}
