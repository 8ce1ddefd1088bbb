/**
 Which keys identity.gpg pins: the colon listing of one OpenPGP key read line by line by
 a machine of flags, against a definition that looks back over the listing.
 */
module Keygrips {
  import opened Options
  import opened Strings

  // ---- lines and their fields -------------------------------------------------------

  function Field(line: string, n: nat): string {
    var fields := Split(line, ':');
    if n < |fields| then fields[n] else ""
  }

  // What the parser takes from a line.
  datatype Record =
    | Sec
    | Ssb(validity: string, caps: string)
    | Fpr(value: string)
    | Grp(value: string)
    | Ignored

  function RecordOf(line: string): Record {
    var kind := Field(line, 0);
    if kind == "sec" then Sec
    else if kind == "ssb" then Ssb(Field(line, 1), Field(line, 11))
    else if kind == "fpr" then Fpr(Upper(Field(line, 9)))
    else if kind == "grp" then Grp(Upper(Field(line, 9)))
    else Ignored
  }

  function Records(listing: string): seq<Record> {
    var lines := Split(listing, '\n');
    seq(|lines|, i requires 0 <= i < |lines| => RecordOf(lines[i]))
  }

  // A composite key's line carries several grips.
  function Grips(value: string): seq<string> { Split(value, ',') }

  // ---- looking back -------------------------------------------------------------------

  // The last sec before line n, as an index plus one; 0 when there is none.
  function LastSec(ls: seq<Record>, n: nat): (k: nat)
    requires n <= |ls|
    ensures k <= n && (k > 0 ==> ls[k - 1].Sec?)
    ensures forall i :: k <= i < n ==> !ls[i].Sec?
  {
    if n == 0 then 0 else if ls[n - 1].Sec? then n else LastSec(ls, n - 1)
  }

  // The sec or ssb a line before n belongs to, as an index plus one.
  function Owner(ls: seq<Record>, n: nat): (k: nat)
    requires n <= |ls|
    ensures k <= n && (k > 0 ==> ls[k - 1].Sec? || ls[k - 1].Ssb?)
    ensures forall i :: k <= i < n ==> !ls[i].Sec? && !ls[i].Ssb?
  {
    if n == 0 then 0 else if ls[n - 1].Sec? || ls[n - 1].Ssb? then n else Owner(ls, n - 1)
  }

  // The first fpr or ssb from line k on; n when there is none before n.
  function FirstMark(ls: seq<Record>, k: nat, n: nat): (f: nat)
    requires k <= n <= |ls|
    ensures k <= f <= n && (f < n ==> ls[f].Fpr? || ls[f].Ssb?)
    ensures forall i :: k <= i < f ==> !ls[i].Fpr? && !ls[i].Ssb?
    decreases n - k
  {
    if k == n || ls[k].Fpr? || ls[k].Ssb? then k else FirstMark(ls, k + 1, n)
  }

  // Line n lies in the block of the asked key: after the block's sec the first fpr or ssb
  // is a fpr, and it carries the fingerprint.
  predicate InBlock(ls: seq<Record>, n: nat, want: string)
    requires n <= |ls|
  {
    var s := LastSec(ls, n);
    s > 0 && (var f := FirstMark(ls, s, n); f < n && ls[f].Fpr? && ls[f].value == want)
  }

  // The primary's fpr has not been met yet.
  predicate AwaitsPrimary(ls: seq<Record>, n: nat)
    requires n <= |ls|
  {
    var s := LastSec(ls, n);
    s > 0 && FirstMark(ls, s, n) == n
  }

  datatype Use = Sign | Decrypt

  predicate Fit(subkey: Record, use: Use)
    requires subkey.Ssb?
  {
    match use
    case Sign => 's' in subkey.caps && subkey.validity != "r" && subkey.validity != "e"
    case Decrypt => 'e' in subkey.caps
  }

  /** Line n gives grips for the use: it is a grp of the asked key that belongs to a subkey
      fit for it.  A revoked or expired subkey still decrypts. */
  predicate Pins(ls: seq<Record>, n: nat, want: string, use: Use)
    requires n < |ls|
  {
    && ls[n].Grp? && ls[n].value != "" && InBlock(ls, n, want)
    && Owner(ls, n) > 0 && ls[Owner(ls, n) - 1].Ssb? && Fit(ls[Owner(ls, n) - 1], use)
  }

  // What one line gives for the use.
  function Given(ls: seq<Record>, n: nat, want: string, use: Use): seq<string>
    requires n < |ls|
  {
    if Pins(ls, n, want, use) then Grips(ls[n].value) else []
  }

  function Concat(parts: seq<seq<string>>): seq<string> {
    if parts == [] then [] else Concat(parts[..|parts| - 1]) + parts[|parts| - 1]
  }

  function GivenAll(ls: seq<Record>, n: nat, want: string, use: Use): (parts: seq<seq<string>>)
    requires n <= |ls|
    ensures |parts| == n
  {
    seq(n, i requires 0 <= i < n => Given(ls, i, want, use))
  }

  // All the grips the first n lines give for the use, in listing order.
  function Collected(ls: seq<Record>, n: nat, want: string, use: Use): seq<string>
    requires n <= |ls|
  {
    Concat(GivenAll(ls, n, want, use))
  }

  lemma ConcatThen(parts: seq<seq<string>>, more: seq<string>)
    ensures Concat(parts + [more]) == Concat(parts) + more
  {
    assert (parts + [more])[..|parts|] == parts;
  }

  lemma {:induction false} ConcatAppend(a: seq<seq<string>>, b: seq<seq<string>>)
    ensures Concat(a + b) == Concat(a) + Concat(b)
    decreases |b|
  {
    if b == [] {
      assert a + b == a;
    } else {
      var n := |b| - 1;
      ConcatAppend(a, b[..n]);
      assert a + b == (a + b[..n]) + [b[n]];
      ConcatThen(a + b[..n], b[n]);
      AppendRight(Concat(a), Concat(b[..n]), b[n]);
    }
  }

  lemma AppendRight(a: seq<string>, b: seq<string>, c: seq<string>)
    ensures (a + b) + c == a + (b + c)
  {
  }

  lemma {:induction false} InConcat(parts: seq<seq<string>>, grip: string)
    ensures grip in Concat(parts) <==> exists i :: 0 <= i < |parts| && grip in parts[i]
  {
    if parts != [] {
      var n := |parts| - 1;
      InConcat(parts[..n], grip);
      assert forall i :: 0 <= i < n ==> parts[..n][i] == parts[i];
    }
  }

  lemma CollectedStep(ls: seq<Record>, n: nat, want: string, use: Use)
    requires n < |ls|
    ensures Collected(ls, n + 1, want, use) == Collected(ls, n, want, use) + Given(ls, n, want, use)
  {
    assert GivenAll(ls, n + 1, want, use) == GivenAll(ls, n, want, use) + [Given(ls, n, want, use)];
    ConcatThen(GivenAll(ls, n, want, use), Given(ls, n, want, use));
  }

  // The listing holds the asked key.
  predicate Holds(ls: seq<Record>, n: nat, want: string)
    requires n <= |ls|
  {
    exists i :: 0 <= i < n && ls[i].Fpr? && AwaitsPrimary(ls, i) && ls[i].value == want
  }

  // ---- the machine ------------------------------------------------------------------------

  datatype Flags = Flags(inKey: bool, atSec: bool, validity: string, caps: string)

  // What the flags mean after n lines.  validity says nothing while caps is empty.
  ghost predicate FlagsMean(ls: seq<Record>, n: nat, want: string, f: Flags)
    requires n <= |ls|
  {
    && f.inKey == InBlock(ls, n, want)
    && f.atSec == AwaitsPrimary(ls, n)
    && (if Owner(ls, n) > 0 && ls[Owner(ls, n) - 1].Ssb? then
          f.caps == ls[Owner(ls, n) - 1].caps && f.validity == ls[Owner(ls, n) - 1].validity
        else f.caps == "")
  }

  // What one more line does to the first mark.
  lemma {:induction false} MarkStep(ls: seq<Record>, k: nat, n: nat)
    requires k <= n < |ls|
    ensures FirstMark(ls, k, n + 1) ==
              if FirstMark(ls, k, n) < n then FirstMark(ls, k, n)
              else if ls[n].Fpr? || ls[n].Ssb? then n else n + 1
    decreases n - k
  {
    if k < n && !ls[k].Fpr? && !ls[k].Ssb? {
      MarkStep(ls, k + 1, n);
    }
  }

  lemma BlockStep(ls: seq<Record>, n: nat, want: string)
    requires n < |ls|
    ensures AwaitsPrimary(ls, n + 1) <==>
              ls[n].Sec? || (AwaitsPrimary(ls, n) && !ls[n].Fpr? && !ls[n].Ssb?)
    ensures InBlock(ls, n + 1, want) <==>
              !ls[n].Sec? &&
              if AwaitsPrimary(ls, n) && ls[n].Fpr? then ls[n].value == want else InBlock(ls, n, want)
  {
    if !ls[n].Sec? && LastSec(ls, n) > 0 {
      MarkStep(ls, LastSec(ls, n), n);
    }
  }

  // The flags after one more line.
  function Advance(f: Flags, line: Record, want: string): Flags {
    match line
    case Sec => f.(inKey := false, atSec := true, caps := "")
    case Ssb(v, c) => f.(atSec := false, validity := v, caps := c)
    case Fpr(value) => if f.atSec then f.(inKey := value == want, atSec := false) else f
    case _ => f
  }

  lemma FlagsStep(ls: seq<Record>, n: nat, want: string, f: Flags)
    requires n < |ls| && FlagsMean(ls, n, want, f)
    ensures FlagsMean(ls, n + 1, want, Advance(f, ls[n], want))
  {
    BlockStep(ls, n, want);
  }

  // The test the machine makes at a grp line.
  predicate Accepts(f: Flags, line: Record, use: Use) {
    && line.Grp? && f.inKey && f.caps != "" && line.value != ""
    && match use
       case Sign => 's' in f.caps && f.validity != "r" && f.validity != "e"
       case Decrypt => 'e' in f.caps
  }

  lemma AcceptsIsPins(ls: seq<Record>, n: nat, want: string, f: Flags, use: Use)
    requires n < |ls| && FlagsMean(ls, n, want, f)
    ensures Accepts(f, ls[n], use) <==> Pins(ls, n, want, use)
  {
  }

  lemma HoldsStep(ls: seq<Record>, n: nat, want: string)
    requires n < |ls|
    ensures Holds(ls, n + 1, want) <==>
              Holds(ls, n, want) || (ls[n].Fpr? && AwaitsPrimary(ls, n) && ls[n].value == want)
  {
  }

  // Everything one line changes, in terms of the flags before it.
  lemma LineStep(ls: seq<Record>, n: nat, want: string, f: Flags)
    requires n < |ls| && FlagsMean(ls, n, want, f)
    ensures FlagsMean(ls, n + 1, want, Advance(f, ls[n], want))
    ensures forall use :: Collected(ls, n + 1, want, use) ==
              Collected(ls, n, want, use) + if Accepts(f, ls[n], use) then Grips(ls[n].value) else []
    ensures Holds(ls, n + 1, want) <==>
              Holds(ls, n, want) || (f.atSec && ls[n].Fpr? && ls[n].value == want)
  {
    FlagsStep(ls, n, want, f);
    forall use
      ensures Collected(ls, n + 1, want, use) ==
                Collected(ls, n, want, use) + if Accepts(f, ls[n], use) then Grips(ls[n].value) else []
    {
      AcceptsIsPins(ls, n, want, f, use);
      CollectedStep(ls, n, want, use);
    }
    HoldsStep(ls, n, want);
  }

  // The machine on one line: the flags after it, and the grips it gives for each use.
  method ReadLine(f: Flags, line: Record, want: string)
    returns (next: Flags, met: bool, sign: seq<string>, decrypt: seq<string>)
    ensures next == Advance(f, line, want)
    ensures met <==> f.atSec && line.Fpr? && line.value == want
    ensures sign == if Accepts(f, line, Sign) then Grips(line.value) else []
    ensures decrypt == if Accepts(f, line, Decrypt) then Grips(line.value) else []
  {
    next, met, sign, decrypt := f, false, [], [];
    match line {
      case Sec =>
        next := f.(inKey := false, atSec := true, caps := "");
      case Ssb(v, c) =>
        next := f.(atSec := false, validity := v, caps := c);
      case Fpr(value) =>
        if f.atSec {
          met := value == want;
          next := f.(inKey := met, atSec := false);
        }
      case Grp(value) =>
        if f.inKey && f.caps != "" && value != "" {
          var grips := Grips(value);
          if 's' in f.caps && f.validity != "r" && f.validity != "e" {
            sign := grips;
          }
          if 'e' in f.caps {
            decrypt := grips;
          }
        }
      case Ignored =>
    }
  }

  method ReadRecords(ls: seq<Record>, want: string)
    returns (signers: seq<string>, encryptors: seq<string>, found: bool)
    ensures signers == Collected(ls, |ls|, want, Sign) && encryptors == Collected(ls, |ls|, want, Decrypt)
    ensures found <==> Holds(ls, |ls|, want)
  {
    signers, encryptors, found := [], [], false;
    var f := Flags(false, false, "", "");
    var i := 0;
    while i < |ls|
      invariant i <= |ls| && FlagsMean(ls, i, want, f)
      invariant signers == Collected(ls, i, want, Sign) && encryptors == Collected(ls, i, want, Decrypt)
      invariant found <==> Holds(ls, i, want)
    {
      LineStep(ls, i, want, f);
      var met, sign, decrypt;
      f, met, sign, decrypt := ReadLine(f, ls[i], want);
      signers, encryptors, found := signers + sign, encryptors + decrypt, found || met;
      i := i + 1;
    }
  }

  // ---- the listing as text ----------------------------------------------------------------

  // A line as its columns.
  type Columns = seq<string>

  predicate IsLine(cs: Columns) { cs != [] && forall i :: 0 <= i < |cs| ==> ':' !in cs[i] && '\n' !in cs[i] }

  function LineText(cs: Columns): string
    requires cs != []
  {
    if |cs| == 1 then cs[0] else cs[0] + [':'] + LineText(cs[1..])
  }

  function Column(cs: Columns, n: nat): string { if n < |cs| then cs[n] else "" }

  lemma {:induction false} NoSeparator(s: string, sep: char)
    requires sep !in s
    ensures Cut(s, sep) == |s| && Split(s, sep) == [s]
  {
    if s != "" {
      NoSeparator(s[1..], sep);
    }
  }

  lemma {:induction false} LineSplits(cs: Columns)
    requires IsLine(cs)
    ensures Split(LineText(cs), ':') == cs && '\n' !in LineText(cs)
  {
    if |cs| == 1 {
      NoSeparator(cs[0], ':');
    } else {
      LineSplits(cs[1..]);
      SplitAt(cs[0], ':', LineText(cs[1..]));
    }
  }

  /** What is taken from a line: its kind from the first column, an ssb's validity and
      capabilities from the second and the twelfth, and a value from the tenth. */
  lemma RecordReads(cs: Columns)
    requires IsLine(cs)
    ensures RecordOf(LineText(cs)) ==
              if cs[0] == "sec" then Sec
              else if cs[0] == "ssb" then Ssb(Column(cs, 1), Column(cs, 11))
              else if cs[0] == "fpr" then Fpr(Upper(Column(cs, 9)))
              else if cs[0] == "grp" then Grp(Upper(Column(cs, 9)))
              else Ignored
  {
    LineSplits(cs);
  }

  datatype Subkey = Subkey(ssb: Columns, fpr: Columns, grp: Columns)

  // A key's block: its own three lines, others such as its user ids, and its subkeys.
  datatype Key = Key(sec: Columns, fpr: Columns, grp: Columns, extra: seq<Columns>, subkeys: seq<Subkey>)

  predicate IsKind(cs: Columns, kind: string) { IsLine(cs) && cs[0] == kind }

  predicate IsExtra(cs: Columns) { IsLine(cs) && cs[0] != "sec" && cs[0] != "ssb" && cs[0] != "fpr" && cs[0] != "grp" }

  predicate IsSubkey(s: Subkey) { IsKind(s.ssb, "ssb") && IsKind(s.fpr, "fpr") && IsKind(s.grp, "grp") }

  predicate IsKey(k: Key) {
    && IsKind(k.sec, "sec") && IsKind(k.fpr, "fpr") && IsKind(k.grp, "grp")
    && (forall i :: 0 <= i < |k.extra| ==> IsExtra(k.extra[i]))
    && (forall i :: 0 <= i < |k.subkeys| ==> IsSubkey(k.subkeys[i]))
  }

  predicate AreKeys(keys: seq<Key>) { forall i :: 0 <= i < |keys| ==> IsKey(keys[i]) }

  function SubLines(subs: seq<Subkey>): seq<Columns> {
    if subs == [] then [] else [subs[0].ssb, subs[0].fpr, subs[0].grp] + SubLines(subs[1..])
  }

  function KeyLines(k: Key): seq<Columns> { [k.sec, k.fpr, k.grp] + (k.extra + SubLines(k.subkeys)) }

  function ListingLines(keys: seq<Key>): seq<Columns> {
    if keys == [] then [] else KeyLines(keys[0]) + ListingLines(keys[1..])
  }

  predicate AreLines(lines: seq<Columns>) { forall i :: 0 <= i < |lines| ==> IsLine(lines[i]) }

  lemma {:induction false} SubLinesAreLines(subs: seq<Subkey>)
    requires forall i :: 0 <= i < |subs| ==> IsSubkey(subs[i])
    ensures AreLines(SubLines(subs))
  {
    if subs != [] {
      SubLinesAreLines(subs[1..]);
    }
  }

  lemma {:induction false} KeysAreLines(keys: seq<Key>)
    requires AreKeys(keys)
    ensures AreLines(ListingLines(keys))
  {
    if keys != [] {
      assert IsKey(keys[0]);
      SubLinesAreLines(keys[0].subkeys);
      KeysAreLines(keys[1..]);
    }
  }

  function Texts(lines: seq<Columns>): seq<string>
    requires AreLines(lines)
  {
    seq(|lines|, i requires 0 <= i < |lines| => LineText(lines[i]))
  }

  // The whole listing, every line with its newline.
  function Listing(keys: seq<Key>): string
    requires AreKeys(keys)
  {
    KeysAreLines(keys);
    Text(Texts(ListingLines(keys)))
  }

  // ---- what it pins, told by its blocks ------------------------------------------------------

  // The grips one subkey gives for a use.
  function SubkeyGrips(s: Subkey, use: Use): seq<string> {
    var validity, caps, value := Column(s.ssb, 1), Column(s.ssb, 11), Upper(Column(s.grp, 9));
    var fit := match use
      case Sign => 's' in caps && validity != "r" && validity != "e"
      case Decrypt => 'e' in caps;
    if fit && value != "" then Split(value, ',') else []
  }

  function SubkeysGrips(subs: seq<Subkey>, use: Use): seq<string> {
    if subs == [] then [] else SubkeyGrips(subs[0], use) + SubkeysGrips(subs[1..], use)
  }

  predicate Asked(k: Key, fingerprint: string) { Upper(Column(k.fpr, 9)) == Upper(fingerprint) }

  function AskedGrips(keys: seq<Key>, fingerprint: string, use: Use): seq<string> {
    if keys == [] then []
    else (if Asked(keys[0], fingerprint) then SubkeysGrips(keys[0].subkeys, use) else [])
         + AskedGrips(keys[1..], fingerprint, use)
  }

  // ---- the machine over many lines -----------------------------------------------------------

  function AcceptedGrips(f: Flags, line: Record, use: Use): seq<string> {
    if Accepts(f, line, use) then Grips(line.value) else []
  }

  predicate Meets(f: Flags, line: Record, want: string) { f.atSec && line.Fpr? && line.value == want }

  // The flags after some lines, the grips they give, and whether the asked key is among them.
  function After(f: Flags, ls: seq<Record>, want: string): Flags
    decreases |ls|
  {
    if ls == [] then f else After(Advance(f, ls[0], want), ls[1..], want)
  }

  function Out(f: Flags, ls: seq<Record>, want: string, use: Use): seq<string>
    decreases |ls|
  {
    if ls == [] then [] else AcceptedGrips(f, ls[0], use) + Out(Advance(f, ls[0], want), ls[1..], want, use)
  }

  predicate Met(f: Flags, ls: seq<Record>, want: string)
    decreases |ls|
  {
    ls != [] && (Meets(f, ls[0], want) || Met(Advance(f, ls[0], want), ls[1..], want))
  }

  lemma {:induction false} MachineAppends(f: Flags, a: seq<Record>, b: seq<Record>, want: string, use: Use)
    ensures After(f, a + b, want) == After(After(f, a, want), b, want)
    ensures Out(f, a + b, want, use) == Out(f, a, want, use) + Out(After(f, a, want), b, want, use)
    ensures Met(f, a + b, want) <==> Met(f, a, want) || Met(After(f, a, want), b, want)
    decreases |a|
  {
    if a == [] {
      assert a + b == b;
    } else {
      assert (a + b)[1..] == a[1..] + b;
      var g := Advance(f, a[0], want);
      MachineAppends(g, a[1..], b, want, use);
      AppendRight(AcceptedGrips(f, a[0], use), Out(g, a[1..], want, use), Out(After(f, a, want), b, want, use));
    }
  }

  lemma OneStep(f: Flags, ls: seq<Record>, want: string, use: Use)
    requires ls != []
    ensures var g := Advance(f, ls[0], want);
            && After(f, ls, want) == After(g, ls[1..], want)
            && Out(f, ls, want, use) == AcceptedGrips(f, ls[0], use) + Out(g, ls[1..], want, use)
            && (Met(f, ls, want) <==> Meets(f, ls[0], want) || Met(g, ls[1..], want))
  {
  }

  lemma LineStepFor(ls: seq<Record>, n: nat, want: string, f: Flags, use: Use)
    requires n < |ls| && FlagsMean(ls, n, want, f)
    ensures FlagsMean(ls, n + 1, want, Advance(f, ls[n], want))
    ensures Collected(ls, n + 1, want, use) == Collected(ls, n, want, use) + AcceptedGrips(f, ls[n], use)
    ensures Holds(ls, n + 1, want) <==> Holds(ls, n, want) || Meets(f, ls[n], want)
  {
    LineStep(ls, n, want, f);
  }

  // The machine from line n on, as one more line of it.
  lemma OneStepAt(ls: seq<Record>, n: nat, want: string, f: Flags, use: Use)
    requires n < |ls|
    ensures var g := Advance(f, ls[n], want);
            && Out(f, ls[n..], want, use) == AcceptedGrips(f, ls[n], use) + Out(g, ls[n + 1..], want, use)
            && (Met(f, ls[n..], want) <==> Meets(f, ls[n], want) || Met(g, ls[n + 1..], want))
  {
    assert ls[n..][0] == ls[n] && ls[n..][1..] == ls[n + 1..];
    OneStep(f, ls[n..], want, use);
  }

  lemma {:induction false} MachineFrom(ls: seq<Record>, n: nat, want: string, f: Flags, use: Use)
    requires n <= |ls| && FlagsMean(ls, n, want, f)
    ensures Collected(ls, |ls|, want, use) == Collected(ls, n, want, use) + Out(f, ls[n..], want, use)
    ensures Holds(ls, |ls|, want) <==> Holds(ls, n, want) || Met(f, ls[n..], want)
    decreases |ls| - n
  {
    if n < |ls| {
      var g := Advance(f, ls[n], want);
      LineStepFor(ls, n, want, f, use);
      MachineFrom(ls, n + 1, want, g, use);
      OneStepAt(ls, n, want, f, use);
      AppendRight(Collected(ls, n, want, use), AcceptedGrips(f, ls[n], use), Out(g, ls[n + 1..], want, use));
    }
  }

  const START := Flags(false, false, "", "")

  lemma MachineIsCollected(ls: seq<Record>, want: string, use: Use)
    ensures Collected(ls, |ls|, want, use) == Out(START, ls, want, use)
    ensures Holds(ls, |ls|, want) <==> Met(START, ls, want)
  {
    MachineFrom(ls, 0, want, START, use);
    assert ls[0..] == ls && Collected(ls, 0, want, use) == [];
  }

  // ---- and over blocks ---------------------------------------------------------------------------

  function RecordsOf(lines: seq<Columns>): (ls: seq<Record>)
    requires AreLines(lines)
    ensures |ls| == |lines|
  {
    seq(|lines|, i requires 0 <= i < |lines| => RecordOf(LineText(lines[i])))
  }

  lemma RecordsAppend(a: seq<Columns>, b: seq<Columns>)
    requires AreLines(a) && AreLines(b)
    ensures AreLines(a + b) && RecordsOf(a + b) == RecordsOf(a) + RecordsOf(b)
  {
  }

  lemma {:induction false} ExtraGivesNothing(f: Flags, extra: seq<Columns>, want: string, use: Use)
    requires AreLines(extra) && forall i :: 0 <= i < |extra| ==> IsExtra(extra[i])
    ensures After(f, RecordsOf(extra), want) == f
    ensures Out(f, RecordsOf(extra), want, use) == [] && !Met(f, RecordsOf(extra), want)
    decreases |extra|
  {
    if extra != [] {
      RecordReads(extra[0]);
      assert RecordsOf(extra)[1..] == RecordsOf(extra[1..]);
      ExtraGivesNothing(f, extra[1..], want, use);
    }
  }

  lemma OneSubkey(f: Flags, s: Subkey, ls: seq<Record>, want: string, use: Use)
    requires !f.atSec && IsSubkey(s) && ls == RecordsOf([s.ssb, s.fpr, s.grp])
    ensures var g := After(f, ls, want);
            && !g.atSec && g.inKey == f.inKey && !Met(f, ls, want)
            && Out(f, ls, want, use) == if f.inKey then SubkeyGrips(s, use) else []
  {
    RecordReads(s.ssb);
    RecordReads(s.fpr);
    RecordReads(s.grp);
    ThreeSteps(f, ls, want, use);
  }

  lemma ThreeSteps(f: Flags, ls: seq<Record>, want: string, use: Use)
    requires |ls| == 3
    ensures var g := Advance(f, ls[0], want); var h := Advance(g, ls[1], want);
            && After(f, ls, want) == Advance(h, ls[2], want)
            && Out(f, ls, want, use) == AcceptedGrips(f, ls[0], use) + (AcceptedGrips(g, ls[1], use) + AcceptedGrips(h, ls[2], use))
            && (Met(f, ls, want) <==> Meets(f, ls[0], want) || Meets(g, ls[1], want) || Meets(h, ls[2], want))
  {
    var g := Advance(f, ls[0], want);
    var h := Advance(g, ls[1], want);
    var i := Advance(h, ls[2], want);
    OneStep(f, ls, want, use);
    OneStep(g, ls[1..], want, use);
    assert ls[1..][0] == ls[1] && ls[1..][1..] == ls[2..] && ls[2..][1..] == [];
    OneStep(h, ls[2..], want, use);
    assert After(i, [], want) == i && Out(i, [], want, use) == [] && !Met(i, [], want);
  }

  lemma {:induction false} SubkeysGive(f: Flags, subs: seq<Subkey>, want: string, use: Use)
    requires !f.atSec && forall i :: 0 <= i < |subs| ==> IsSubkey(subs[i])
    requires AreLines(SubLines(subs))
    ensures var ls := RecordsOf(SubLines(subs));
            && !Met(f, ls, want)
            && Out(f, ls, want, use) == if f.inKey then SubkeysGrips(subs, use) else []
    decreases |subs|
  {
    if subs != [] {
      var s := subs[0];
      var lines, rest := [s.ssb, s.fpr, s.grp], SubLines(subs[1..]);
      SubLinesAreLines(subs[1..]);
      RecordsAppend(lines, rest);
      var first := RecordsOf(lines);
      OneSubkey(f, s, first, want, use);
      SubkeysGive(After(f, first, want), subs[1..], want, use);
      MachineAppends(f, first, RecordsOf(rest), want, use);
    }
  }

  // A block opens with its own sec and fpr, so the flags before it do not matter.
  lemma BlockOpens(f: Flags, k: Key, ls: seq<Record>, want: string, use: Use)
    requires IsKey(k) && ls == RecordsOf([k.sec, k.fpr, k.grp])
    ensures var g := After(f, ls, want);
            && g.inKey == (Upper(Column(k.fpr, 9)) == want) && !g.atSec && g.caps == ""
            && Out(f, ls, want, use) == [] && (Met(f, ls, want) <==> g.inKey)
  {
    RecordReads(k.sec);
    RecordReads(k.fpr);
    RecordReads(k.grp);
    ThreeSteps(f, ls, want, use);
  }

  lemma KeyGives(f: Flags, k: Key, want: string, use: Use)
    requires IsKey(k) && AreLines(KeyLines(k))
    ensures var ls := RecordsOf(KeyLines(k)); var asked := Upper(Column(k.fpr, 9)) == want;
            && (Met(f, ls, want) <==> asked)
            && Out(f, ls, want, use) == if asked then SubkeysGrips(k.subkeys, use) else []
  {
    var head, tail := [k.sec, k.fpr, k.grp], k.extra + SubLines(k.subkeys);
    SubLinesAreLines(k.subkeys);
    RecordsAppend(k.extra, SubLines(k.subkeys));
    RecordsAppend(head, tail);
    BlockOpens(f, k, RecordsOf(head), want, use);
    RestGives(After(f, RecordsOf(head), want), k, RecordsOf(tail), want, use);
    MachineAppends(f, RecordsOf(head), RecordsOf(tail), want, use);
  }

  // What follows a block's own three lines.
  lemma RestGives(g: Flags, k: Key, ls: seq<Record>, want: string, use: Use)
    requires IsKey(k) && !g.atSec && AreLines(k.extra) && AreLines(SubLines(k.subkeys))
    requires ls == RecordsOf(k.extra) + RecordsOf(SubLines(k.subkeys))
    ensures !Met(g, ls, want)
    ensures Out(g, ls, want, use) == if g.inKey then SubkeysGrips(k.subkeys, use) else []
  {
    var extra, subs := RecordsOf(k.extra), RecordsOf(SubLines(k.subkeys));
    ExtraGivesNothing(g, k.extra, want, use);
    SubkeysGive(g, k.subkeys, want, use);
    MachineAppends(g, extra, subs, want, use);
  }

  lemma {:induction false} KeysGive(f: Flags, keys: seq<Key>, fingerprint: string, use: Use)
    requires AreKeys(keys) && AreLines(ListingLines(keys))
    ensures var ls, want := RecordsOf(ListingLines(keys)) + [Ignored], Upper(fingerprint);
            && (Met(f, ls, want) <==> exists i :: 0 <= i < |keys| && Asked(keys[i], fingerprint))
            && Out(f, ls, want, use) == AskedGrips(keys, fingerprint, use)
    decreases |keys|
  {
    var want := Upper(fingerprint);
    if keys == [] {
      assert RecordsOf(ListingLines(keys)) + [Ignored] == [Ignored];
      OneStep(f, [Ignored], want, use);
      assert [Ignored][1..] == [];
    } else {
      var first, rest := KeyLines(keys[0]), ListingLines(keys[1..]);
      KeysAreLines(keys[1..]);
      KeyIsLines(keys[0]);
      KeyGives(f, keys[0], want, use);
      KeysGive(After(f, RecordsOf(first), want), keys[1..], fingerprint, use);
      RecordsAppend(first, rest);
      AppendOne(RecordsOf(first), RecordsOf(rest), Ignored);
      MachineAppends(f, RecordsOf(first), RecordsOf(rest) + [Ignored], want, use);
      AskedSomewhere(keys, fingerprint);
    }
  }

  lemma KeyIsLines(k: Key)
    requires IsKey(k)
    ensures AreLines(KeyLines(k))
  {
    SubLinesAreLines(k.subkeys);
  }

  lemma AppendOne(a: seq<Record>, b: seq<Record>, r: Record)
    ensures (a + b) + [r] == a + (b + [r])
  {
  }

  lemma AskedSomewhere(keys: seq<Key>, fingerprint: string)
    requires keys != []
    ensures (exists i :: 0 <= i < |keys| && Asked(keys[i], fingerprint)) <==>
              Asked(keys[0], fingerprint) || exists i :: 0 <= i < |keys[1..]| && Asked(keys[1..][i], fingerprint)
  {
    if i :| 0 <= i < |keys[1..]| && Asked(keys[1..][i], fingerprint) {
      assert Asked(keys[i + 1], fingerprint);
    }
    if i :| 0 <= i < |keys| && Asked(keys[i], fingerprint) && !Asked(keys[0], fingerprint) {
      assert keys[1..][i - 1] == keys[i];
    }
  }

  lemma ListingRecords(keys: seq<Key>)
    requires AreKeys(keys)
    ensures AreLines(ListingLines(keys)) && Records(Listing(keys)) == RecordsOf(ListingLines(keys)) + [Ignored]
  {
    KeysAreLines(keys);
    var texts := Texts(ListingLines(keys));
    forall l | l in texts ensures '\n' !in l {
      var i :| 0 <= i < |texts| && texts[i] == l;
      LineSplits(ListingLines(keys)[i]);
    }
    TextSplits(texts);
    NoSeparator("", ':');
    assert RecordOf("") == Ignored;
  }

  /** THE LISTING AS WRITTEN.  For any key blocks written out line by line, the asked key is
      found exactly if some block's primary fingerprint is the one asked for, and what is
      collected for a use is what that block's subkeys fit for it give, in order. */
  lemma ListingIsRead(keys: seq<Key>, fingerprint: string, use: Use)
    requires AreKeys(keys)
    ensures var ls, want := Records(Listing(keys)), Upper(fingerprint);
            && (Holds(ls, |ls|, want) <==> exists i :: 0 <= i < |keys| && Asked(keys[i], fingerprint))
            && Collected(ls, |ls|, want, use) == AskedGrips(keys, fingerprint, use)
  {
    ListingRecords(keys);
    KeysGive(START, keys, fingerprint, use);
    MachineIsCollected(Records(Listing(keys)), Upper(fingerprint), use);
  }

  /** The parser's whole result: on any text told by looking back over its lines, and on a
      listing of key blocks by the blocks. */
  method ParseKeygrips(listing: string, fingerprint: string)
    returns (signers: seq<string>, encryptors: seq<string>, found: bool)
    ensures var ls, want := Records(listing), Upper(fingerprint);
            && signers == Collected(ls, |ls|, want, Sign)
            && encryptors == Collected(ls, |ls|, want, Decrypt)
            && (found <==> Holds(ls, |ls|, want))
    ensures forall keys: seq<Key> :: AreKeys(keys) && listing == Listing(keys) ==>
              && (found <==> exists i :: 0 <= i < |keys| && Upper(Column(keys[i].fpr, 9)) == Upper(fingerprint))
              && signers == AskedGrips(keys, fingerprint, Sign)
              && encryptors == AskedGrips(keys, fingerprint, Decrypt)
  {
    signers, encryptors, found := ReadRecords(Records(listing), Upper(fingerprint));
    forall keys: seq<Key> | AreKeys(keys) && listing == Listing(keys)
      ensures found <==> exists i :: 0 <= i < |keys| && Upper(Column(keys[i].fpr, 9)) == Upper(fingerprint)
      ensures signers == AskedGrips(keys, fingerprint, Sign)
      ensures encryptors == AskedGrips(keys, fingerprint, Decrypt)
    {
      ListingIsRead(keys, fingerprint, Sign);
      ListingIsRead(keys, fingerprint, Decrypt);
      assert forall k: Key :: Asked(k, fingerprint) <==> Upper(Column(k.fpr, 9)) == Upper(fingerprint);
    }
  }

  // A grip collected stands in the grp line of a subkey of an asked key that is fit for the use.
  ghost predicate SubkeyHas(keys: seq<Key>, fingerprint: string, use: Use, grip: string) {
    exists i, j :: 0 <= i < |keys| && 0 <= j < |keys[i].subkeys|
      && Asked(keys[i], fingerprint) && grip in SubkeyGrips(keys[i].subkeys[j], use)
  }

  lemma {:induction false} InSubkeys(subs: seq<Subkey>, use: Use, grip: string) returns (j: nat)
    requires grip in SubkeysGrips(subs, use)
    ensures j < |subs| && grip in SubkeyGrips(subs[j], use)
  {
    if grip in SubkeyGrips(subs[0], use) {
      j := 0;
    } else {
      j := InSubkeys(subs[1..], use, grip);
      j := j + 1;
    }
  }

  /** So a grip that stands only under primaries is in neither list. */
  lemma {:induction false} OnlySubkeysArePinned(keys: seq<Key>, fingerprint: string, use: Use, grip: string)
    requires grip in AskedGrips(keys, fingerprint, use)
    ensures SubkeyHas(keys, fingerprint, use, grip)
  {
    if Asked(keys[0], fingerprint) && grip in SubkeysGrips(keys[0].subkeys, use) {
      var j := InSubkeys(keys[0].subkeys, use, grip);
      assert grip in SubkeyGrips(keys[0].subkeys[j], use);
    } else {
      OnlySubkeysArePinned(keys[1..], fingerprint, use, grip);
      var i, j :| 0 <= i < |keys[1..]| && 0 <= j < |keys[1..][i].subkeys|
        && Asked(keys[1..][i], fingerprint) && grip in SubkeyGrips(keys[1..][i].subkeys[j], use);
      assert keys[i + 1] == keys[1..][i];
    }
  }

  // ---- what is never pinned ---------------------------------------------------------------

  // Line i gives this grip for this use.
  predicate GivesGrip(ls: seq<Record>, i: nat, want: string, use: Use, grip: string)
    requires i < |ls|
  {
    Pins(ls, i, want, use) && grip in Grips(ls[i].value)
  }

  lemma GivenIff(ls: seq<Record>, i: nat, want: string, use: Use, grip: string)
    requires i < |ls|
    ensures GivesGrip(ls, i, want, use, grip) <==> grip in Given(ls, i, want, use)
  {
  }

  /** The grips pinned for a use are exactly those on the grp lines of the asked key's
      subkeys that are fit for it. */
  lemma PinnedGripsAreSubkeys(ls: seq<Record>, n: nat, want: string, use: Use, grip: string)
    requires n <= |ls|
    ensures grip in Collected(ls, n, want, use) <==>
              exists i :: 0 <= i < n && GivesGrip(ls, i, want, use, grip)
  {
    var parts := GivenAll(ls, n, want, use);
    InConcat(parts, grip);
    forall i | 0 <= i < n ensures GivesGrip(ls, i, want, use, grip) <==> grip in parts[i] {
      GivenIff(ls, i, want, use, grip);
    }
  }

  /** THE PRIMARY IS NEVER PINNED.  A grip that occurs in the listing only under a sec
      record, whose key certifies, is in neither pin list. */
  lemma PrimaryIsNeverPinned(ls: seq<Record>, want: string, use: Use, grip: string)
    requires forall i :: 0 <= i < |ls| && ls[i].Grp? && grip in Grips(ls[i].value) ==>
               Owner(ls, i) == 0 || ls[Owner(ls, i) - 1].Sec?
    ensures grip !in Collected(ls, |ls|, want, use)
  {
    PinnedGripsAreSubkeys(ls, |ls|, want, use, grip);
  }

  // A block's lines mean the same wherever the block stands.
  lemma {:induction false} LookingBackIsLocal(ls: seq<Record>, block: seq<Record>, n: nat)
    requires block != [] && block[0].Sec? && 0 < n <= |block|
    ensures LastSec(ls + block, |ls| + n) == |ls| + LastSec(block, n) && LastSec(block, n) > 0
    ensures Owner(ls + block, |ls| + n) == |ls| + Owner(block, n) && Owner(block, n) > 0
  {
    assert (ls + block)[|ls| + n - 1] == block[n - 1];
    if n > 1 {
      LookingBackIsLocal(ls, block, n - 1);
    }
  }

  lemma {:induction false} FirstMarkIsLocal(ls: seq<Record>, block: seq<Record>, k: nat, n: nat)
    requires k <= n <= |block|
    ensures FirstMark(ls + block, |ls| + k, |ls| + n) == |ls| + FirstMark(block, k, n)
    decreases n - k
  {
    if k < n {
      assert (ls + block)[|ls| + k] == block[k];
      FirstMarkIsLocal(ls, block, k + 1, n);
    }
  }

  // The same for the test of whether the line lies in the asked key's block.
  lemma InBlockIsLocal(ls: seq<Record>, block: seq<Record>, n: nat, want: string)
    requires block != [] && block[0].Sec? && 0 < n <= |block|
    ensures InBlock(ls + block, |ls| + n, want) == InBlock(block, n, want)
  {
    LookingBackIsLocal(ls, block, n);
    FirstMarkIsLocal(ls, block, LastSec(block, n), n);
    var f := FirstMark(block, LastSec(block, n), n);
    assert f < n ==> (ls + block)[|ls| + f] == block[f];
  }

  lemma PinsIsLocal(ls: seq<Record>, block: seq<Record>, n: nat, want: string, use: Use)
    requires block != [] && block[0].Sec? && n < |block|
    ensures Pins(ls + block, |ls| + n, want, use) == Pins(block, n, want, use)
  {
    assert (ls + block)[|ls| + n] == block[n];
    if n > 0 {
      InBlockIsLocal(ls, block, n, want);
      LookingBackIsLocal(ls, block, n);
      assert (ls + block)[|ls| + Owner(block, n) - 1] == block[Owner(block, n) - 1];
    }
  }

  lemma PrefixPins(ls: seq<Record>, more: seq<Record>, n: nat, want: string, use: Use)
    requires n < |ls|
    ensures Pins(ls + more, n, want, use) == Pins(ls, n, want, use)
  {
    PrefixLooksBack(ls, more, n);
    PrefixFirstMark(ls, more, LastSec(ls, n), n);
  }

  lemma {:induction false} PrefixLooksBack(ls: seq<Record>, more: seq<Record>, n: nat)
    requires n <= |ls|
    ensures LastSec(ls + more, n) == LastSec(ls, n) && Owner(ls + more, n) == Owner(ls, n)
  {
    if n > 0 {
      PrefixLooksBack(ls, more, n - 1);
    }
  }

  lemma {:induction false} PrefixFirstMark(ls: seq<Record>, more: seq<Record>, k: nat, n: nat)
    requires k <= n <= |ls|
    ensures FirstMark(ls + more, k, n) == FirstMark(ls, k, n)
    decreases n - k
  {
    if k < n {
      PrefixFirstMark(ls, more, k + 1, n);
    }
  }

  lemma GivenIsLocal(ls: seq<Record>, block: seq<Record>, n: nat, want: string, use: Use)
    requires block != [] && block[0].Sec? && n < |block|
    ensures Given(ls + block, |ls| + n, want, use) == Given(block, n, want, use)
  {
    PinsIsLocal(ls, block, n, want, use);
    assert (ls + block)[|ls| + n] == block[n];
  }

  lemma PrefixGiven(ls: seq<Record>, more: seq<Record>, n: nat, want: string, use: Use)
    requires n < |ls|
    ensures Given(ls + more, n, want, use) == Given(ls, n, want, use)
  {
    PrefixPins(ls, more, n, want, use);
    assert (ls + more)[n] == ls[n];
  }

  /** Key blocks are read apart: appending a block adds exactly the grips the block alone
      would give, so a second key in the listing adds nothing to the asked key's pins. */
  lemma BlocksAddUp(ls: seq<Record>, block: seq<Record>, n: nat, want: string, use: Use)
    requires block != [] && block[0].Sec? && n <= |block|
    ensures Collected(ls + block, |ls| + n, want, use) ==
              Collected(ls, |ls|, want, use) + Collected(block, n, want, use)
  {
    var whole, first, second :=
      GivenAll(ls + block, |ls| + n, want, use), GivenAll(ls, |ls|, want, use), GivenAll(block, n, want, use);
    forall i | 0 <= i < |ls| ensures whole[i] == first[i] { PrefixGiven(ls, block, i, want, use); }
    forall i | 0 <= i < n ensures whole[|ls| + i] == second[i] { GivenIsLocal(ls, block, i, want, use); }
    assert whole == first + second;
    ConcatAppend(first, second);
  }

  lemma {:induction false} ConcatNothing(parts: seq<seq<string>>)
    requires forall i :: 0 <= i < |parts| ==> parts[i] == []
    ensures Concat(parts) == []
  {
    if parts != [] {
      ConcatNothing(parts[..|parts| - 1]);
    }
  }

  // What is held after some lines is held after more.
  lemma HoldsGrows(ls: seq<Record>, m: nat, n: nat, want: string)
    requires m <= n <= |ls|
    ensures Holds(ls, m, want) ==> Holds(ls, n, want)
  {
  }

  /** A block of another key gives nothing. */
  lemma OtherKeyGivesNothing(block: seq<Record>, n: nat, want: string, use: Use)
    requires n <= |block| && !Holds(block, |block|, want)
    ensures Collected(block, n, want, use) == []
  {
    forall i | 0 <= i < n ensures Given(block, i, want, use) == [] {
      BlockIsHeld(block, i, want);
      HoldsGrows(block, i, |block|, want);
    }
    ConcatNothing(GivenAll(block, n, want, use));
  }

  lemma BlockIsHeld(ls: seq<Record>, n: nat, want: string)
    requires n <= |ls|
    ensures InBlock(ls, n, want) ==> Holds(ls, n, want)
  {
    if InBlock(ls, n, want) {
      MarkIsAwaited(ls, FirstMark(ls, LastSec(ls, n), n), n);
    }
  }

  // The fpr a block is judged by is one the machine was waiting for.
  lemma {:induction false} MarkIsAwaited(ls: seq<Record>, f: nat, n: nat)
    requires f < n <= |ls| && LastSec(ls, n) > 0 && f == FirstMark(ls, LastSec(ls, n), n)
    ensures AwaitsPrimary(ls, f)
    decreases n
  {
    var s := LastSec(ls, n);
    SecStays(ls, f, n);
    MarkShrinks(ls, s, f, n);
  }

  lemma {:induction false} SecStays(ls: seq<Record>, f: nat, n: nat)
    requires n <= |ls| && LastSec(ls, n) <= f <= n
    ensures LastSec(ls, f) == LastSec(ls, n)
    decreases n - f
  {
    if f < n {
      assert !ls[n - 1].Sec?;
      SecStays(ls, f, n - 1);
    }
  }

  lemma {:induction false} MarkShrinks(ls: seq<Record>, k: nat, f: nat, n: nat)
    requires k <= f <= n <= |ls| && f == FirstMark(ls, k, n)
    ensures FirstMark(ls, k, f) == f
    decreases f - k
  {
    if k < f {
      MarkShrinks(ls, k + 1, f, n);
    }
  }

  // ---- the pin set ---------------------------------------------------------------------------

  datatype Pin = Pin(grip: string, use: Use)

  datatype PinError = NoSigningSubkey | NoEncryptionSubkey

  predicate ScopeHas(scope: string, word: string) { word in Split(scope, ',') }

  function PinAll(grips: seq<string>, use: Use): seq<Pin> {
    seq(|grips|, i requires 0 <= i < |grips| => Pin(grips[i], use))
  }

  /** A scope is pinned to exactly the grips found for it; one the key has no subkey for is
      refused, never pinned to nothing. */
  method GpgPins(scope: string, signers: seq<string>, encryptors: seq<string>)
    returns (r: Result<seq<Pin>, PinError>)
    ensures r == Err(NoSigningSubkey) <==> "sign" in Split(scope, ',') && signers == []
    ensures r == Err(NoEncryptionSubkey) <==>
              "decrypt" in Split(scope, ',') && encryptors == [] && r != Err(NoSigningSubkey)
    ensures r.Ok? ==>
              forall grip, use :: Pin(grip, use) in r.value <==>
                match use
                case Sign => "sign" in Split(scope, ',') && grip in signers
                case Decrypt => "decrypt" in Split(scope, ',') && grip in encryptors
    ensures r.Ok? ==>
              r.value == (if ScopeHas(scope, "sign") then PinAll(signers, Sign) else [])
                         + (if ScopeHas(scope, "decrypt") then PinAll(encryptors, Decrypt) else [])
  {
    r := PinScopes(ScopeHas(scope, "sign"), ScopeHas(scope, "decrypt"), signers, encryptors);
  }

  method PinScopes(sign: bool, decrypt: bool, signers: seq<string>, encryptors: seq<string>)
    returns (r: Result<seq<Pin>, PinError>)
    ensures r == if sign && signers == [] then Err(NoSigningSubkey)
                 else if decrypt && encryptors == [] then Err(NoEncryptionSubkey)
                 else Ok(PinBoth(sign, decrypt, signers, encryptors))
    ensures r.Ok? ==> forall grip, use :: Pin(grip, use) in r.value <==> IsPinned(sign, decrypt, signers, encryptors, grip, use)
  {
    var pins := [];
    if sign {
      if signers == [] {
        return Err(NoSigningSubkey);
      }
      pins := AppendPins(pins, signers, Sign);
    }
    if decrypt {
      if encryptors == [] {
        return Err(NoEncryptionSubkey);
      }
      pins := AppendPins(pins, encryptors, Decrypt);
    }
    PinsHold(sign, decrypt, signers, encryptors);
    assert pins == PinBoth(sign, decrypt, signers, encryptors);
    return Ok(pins);
  }

  function PinBoth(sign: bool, decrypt: bool, signers: seq<string>, encryptors: seq<string>): seq<Pin> {
    (if sign then PinAll(signers, Sign) else []) + (if decrypt then PinAll(encryptors, Decrypt) else [])
  }

  predicate IsPinned(sign: bool, decrypt: bool, signers: seq<string>, encryptors: seq<string>, grip: string, use: Use) {
    if use == Sign then sign && grip in signers else decrypt && grip in encryptors
  }

  method AppendPins(pins: seq<Pin>, grips: seq<string>, use: Use) returns (r: seq<Pin>)
    ensures r == pins + PinAll(grips, use)
  {
    r := pins;
    var i := 0;
    while i < |grips|
      invariant i <= |grips| && r == pins + PinAll(grips[..i], use)
    {
      r := r + [Pin(grips[i], use)];
      i := i + 1;
    }
    assert grips[..i] == grips;
  }

  lemma PinAllHolds(grips: seq<string>, use: Use)
    ensures forall grip, u :: Pin(grip, u) in PinAll(grips, use) <==> u == use && grip in grips
  {
    forall grip | grip in grips ensures Pin(grip, use) in PinAll(grips, use) {
      var i :| 0 <= i < |grips| && grips[i] == grip;
      assert PinAll(grips, use)[i] == Pin(grip, use);
    }
  }

  lemma PinsHold(sign: bool, decrypt: bool, signers: seq<string>, encryptors: seq<string>)
    ensures forall grip, use ::
              Pin(grip, use) in PinBoth(sign, decrypt, signers, encryptors) <==>
              IsPinned(sign, decrypt, signers, encryptors, grip, use)
  {
    PinAllHolds(signers, Sign);
    PinAllHolds(encryptors, Decrypt);
  }
}
