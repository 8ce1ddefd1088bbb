/**
 `snug fix sysctl -w`: raising the kernel knobs snug inherits from the host, now and at
 the next boot, without ever lowering one.
 */
module Sysctl {
  import opened Options
  import opened Strings
  import opened HostFiles
  import opened StorageLock

  // ---- the table and a host's answers --------------------------------------------------

  datatype Knob = Knob(name: string, want: Want)

  type Want = n: int | 0 <= n < 0x8000_0000_0000_0000

  const TABLE: seq<Knob> := [
    Knob("kernel.kptr_restrict", 1),
    Knob("kernel.dmesg_restrict", 1),
    Knob("kernel.perf_event_paranoid", 2),
    Knob("kernel.yama.ptrace_scope", 1),
    Knob("kernel.unprivileged_bpf_disabled", 1)
  ]

  // What strconv.Atoi can return.
  type Int64 = n: int | -0x8000_0000_0000_0000 <= n < 0x8000_0000_0000_0000

  // A fault is its own outcome and never counts as weak.
  datatype Answer = Value(n: Int64) | Absent | Unreadable | NotANumber

  datatype Reading = Reading(knob: Knob, answer: Answer)

  // What one file under /proc/sys gives a reader.
  datatype File = Holds(text: string) | ReadFails

  const MAX_PROC_SYS := 64

  function AnswerOf(file: File): Answer {
    if file.ReadFails? || |file.text| > MAX_PROC_SYS then Answer.Unreadable
    else match Atoi(TrimSpace(file.text)) case None => NotANumber case Some(n) => Value(n)
  }

  // The running kernel: the files of the knobs that exist.
  type Kernel = map<string, File>

  function Ask(kernel: Kernel, name: string): Answer { if name in kernel then AnswerOf(kernel[name]) else Absent }

  // A knob once a number has been written to it.
  function Written(n: Want): File { Holds(Decimal(n) + "\n") }

  function Pow10(k: nat): nat { if k == 0 then 1 else 10 * Pow10(k - 1) }

  lemma {:induction false} DecimalLength(n: nat, k: nat)
    requires k > 0 && n < Pow10(k)
    ensures |Decimal(n)| <= k
  {
    if n >= 10 {
      DecimalLength(n / 10, k - 1);
    }
  }

  lemma IntegerLength(n: Want)
    ensures |Decimal(n)| <= 20
  {
    assert Pow10(5) == 100000 && Pow10(10) == 100000 * 100000;
    assert Pow10(15) == 100000 * Pow10(10) && Pow10(20) == 100000 * Pow10(15);
    DecimalLength(n, 20);
  }

  // What is written is what is read again.
  lemma WrittenReads(n: Want)
    ensures AnswerOf(Written(n)) == Value(n)
  {
    IntegerLength(n);
    PrintedReads(n);
  }

  predicate StrictEnough(r: Reading) { r.answer.Value? && r.answer.n >= r.knob.want }

  predicate Weak(r: Reading) { r.answer.Value? && r.answer.n < r.knob.want }

  // What the persistent file carries: never less than what the kernel already does.
  function Desired(r: Reading): (d: Want)
    requires r.answer.Value?
    ensures d >= r.knob.want >= 0 && d >= r.answer.n
  {
    if r.answer.n > r.knob.want then r.answer.n else r.knob.want
  }

  method ReadHostSysctls(kernel: Kernel) returns (readings: seq<Reading>)
    ensures readings == Readings(kernel)
  {
    readings := [];
    var i := 0;
    while i < |TABLE|
      invariant i <= |TABLE| && readings == Readings(kernel)[..i]
    {
      readings := readings + [Reading(TABLE[i], Ask(kernel, TABLE[i].name))];
      i := i + 1;
    }
  }

  function Readings(kernel: Kernel): seq<Reading> {
    seq(|TABLE|, i requires 0 <= i < |TABLE| => Reading(TABLE[i], Ask(kernel, TABLE[i].name)))
  }

  // ---- the drop-in's text ------------------------------------------------------------------

  datatype Setting = Setting(name: string, value: Want)

  function DropInLines(readings: seq<Reading>): seq<Setting> {
    if readings == [] then []
    else (if readings[0].answer.Value? then [Setting(readings[0].knob.name, Desired(readings[0]))] else [])
         + DropInLines(readings[1..])
  }

  method SysctlDropInLines(readings: seq<Reading>) returns (lines: seq<Setting>)
    ensures lines == DropInLines(readings)
  {
    lines := [];
    var i := 0;
    while i < |readings|
      invariant i <= |readings| && lines + DropInLines(readings[i..]) == DropInLines(readings)
    {
      assert readings[i..][1..] == readings[i + 1..];
      if readings[i].answer.Value? {
        lines := lines + [Setting(readings[i].knob.name, Desired(readings[i]))];
      }
      i := i + 1;
    }
  }

  // One line for each readable knob, at the larger of want and value; none for a fault.
  lemma {:induction false} DropInCovers(readings: seq<Reading>, name: string, value: Want)
    ensures Setting(name, value) in DropInLines(readings) <==>
              exists r :: r in readings && r.answer.Value? && r.knob.name == name && Desired(r) == value
  {
    if readings != [] {
      DropInCovers(readings[1..], name, value);
      assert readings == [readings[0]] + readings[1..];
    }
  }

  // In two pieces each: the verifier reads a short literal character by character, and the
  // proof that these are comments needs that.
  const HEADER1 := "# Written by " + "`snug fix sysctl -w`."
  const HEADER2 := "# The kernel hardening snug's " + "threat model inherits from this host;"
  const HEADER3 := "# `snug doctor` reports it. 00- so " + "a deliberate host file later in"
  const HEADER4 := "# sysctl.d's order overrides this " + "one; snug raises a floor."
  const HEADER: seq<string> := [HEADER1, HEADER2, HEADER3, HEADER4]

  function LineOf(s: Setting): string { s.name + (" " + ("=" + (" " + Decimal(s.value)))) }

  function LinesOf(settings: seq<Setting>): seq<string> {
    seq(|settings|, i requires 0 <= i < |settings| => LineOf(settings[i]))
  }

  function Body(settings: seq<Setting>): string { Text(HEADER + LinesOf(settings)) }

  // ---- what a boot makes of it ----------------------------------------------------------------

  // sysctl --system on one line: a comment, or "name = value" in the kernel's range.
  function SettingOf(line: string): Option<Setting> {
    if line == "" || line[0] == '#' then None
    else
      var f := Fields(line);
      if |f| != 3 || f[1] != "=" then None
      else match ParseUint64(f[2]) case None => None case Some(n) => if n < 0x8000_0000_0000_0000 then Some(Setting(f[0], n)) else None
  }

  function SettingsOf(lines: seq<string>): seq<Setting> {
    if lines == [] then []
    else (match SettingOf(lines[0]) case None => [] case Some(s) => [s]) + SettingsOf(lines[1..])
  }

  function Boot(kernel: Kernel, settings: seq<Setting>): Kernel {
    if settings == [] then kernel
    else
      var s := settings[0];
      Boot(if s.name in kernel then kernel[s.name := Written(s.value)] else kernel, settings[1..])
  }

  predicate Writable(s: Setting) {
    IsWord(s.name) && s.name[0] != '#' && '\n' !in s.name
  }

  lemma LineFields(s: Setting)
    requires IsWord(s.name)
    ensures Fields(LineOf(s)) == [s.name, "=", Decimal(s.value)]
  {
    var d := Decimal(s.value);
    DecimalIsWord(s.value);
    FieldsWord(s.name, " " + ("=" + (" " + d)));
    FieldsSkip(" ", "=" + (" " + d));
    FieldsWord("=", " " + d);
    FieldsSkip(" ", d);
    FieldsWord(d, "");
    assert d + "" == d;
  }

  lemma LineIsOneLine(s: Setting)
    requires '\n' !in s.name
    ensures '\n' !in LineOf(s)
  {
    var d := Decimal(s.value);
    assert forall i :: 0 <= i < |d| ==> IsDigit(d[i]);
    assert '\n' !in d;
    assert '\n' !in " " + d;
    assert '\n' !in "=" + (" " + d);
  }

  lemma LineReadsBack(s: Setting)
    requires Writable(s)
    ensures SettingOf(LineOf(s)) == Some(s)
  {
    LineFields(s);
    DecimalIsWord(s.value);
    assert LineOf(s)[0] == s.name[0];
  }

  lemma {:induction false} SettingsAppend(a: seq<string>, b: seq<string>)
    ensures SettingsOf(a + b) == SettingsOf(a) + SettingsOf(b)
  {
    if a == [] {
      assert a + b == b;
    } else {
      assert (a + b)[1..] == a[1..] + b;
      SettingsAppend(a[1..], b);
    }
  }

  lemma {:induction false} LinesReadBack(settings: seq<Setting>)
    requires forall s :: s in settings ==> Writable(s)
    ensures SettingsOf(LinesOf(settings)) == settings
    ensures forall l :: l in LinesOf(settings) ==> '\n' !in l
  {
    if settings != [] {
      LineReadsBack(settings[0]);
      LineIsOneLine(settings[0]);
      LinesReadBack(settings[1..]);
      assert LinesOf(settings) == [LineOf(settings[0])] + LinesOf(settings[1..]);
    }
  }

  /** A boot reads from the file exactly the settings it was written from; the header is
      all comments. */
  lemma BodyReadsBack(settings: seq<Setting>)
    requires forall s :: s in settings ==> Writable(s)
    ensures SettingsOf(Split(Body(settings), '\n')) == settings
  {
    var lines := LinesOf(settings);
    LinesReadBack(settings);
    HeaderIsComments();
    TextSplits(HEADER + lines);
    SettingsAppend(HEADER, lines);
    SettingsAppend(HEADER + lines, [""]);
    assert SettingsOf([""]) == [];
  }

  predicate Comment(line: string) { line != "" && line[0] == '#' && '\n' !in line }

  lemma HeaderLine1() ensures Comment(HEADER1) {
  }

  lemma HeaderLine2() ensures Comment(HEADER2) {
    Extend("# The kernel hardening snug's ", "threat model inherits from this host;");
  }

  lemma HeaderLine3() ensures Comment(HEADER3) {
    Extend("# `snug doctor` reports it. 00- so ", "a deliberate host file later in");
  }

  lemma HeaderLine4() ensures Comment(HEADER4) {
    Extend("# sysctl.d's order overrides this ", "one; snug raises a floor.");
  }

  lemma Extend(start: string, rest: string)
    requires Comment(start) && '\n' !in rest
    ensures Comment(start + rest)
  {
  }

  lemma HeaderIsComments()
    ensures SettingsOf(HEADER) == [] && forall l :: l in HEADER ==> '\n' !in l
  {
    HeaderLine1();
    HeaderLine2();
    HeaderLine3();
    HeaderLine4();
    CommentsGiveNothing(HEADER);
  }

  lemma {:induction false} CommentsGiveNothing(lines: seq<string>)
    requires forall i :: 0 <= i < |lines| ==> Comment(lines[i])
    ensures SettingsOf(lines) == []
  {
    if lines != [] {
      CommentsGiveNothing(lines[1..]);
    }
  }

  // ---- the table itself ----------------------------------------------------------------------------

  predicate Plain(name: string) { IsWord(name) && name[0] != '#' && '\n' !in name && |name| <= 40 }

  lemma PlainName0() ensures Plain("kernel.kptr_restrict") {
  }

  lemma PlainName1() ensures Plain("kernel.dmesg_restrict") {
  }

  lemma PlainName2() ensures Plain("kernel.perf_event_paranoid") {
  }

  lemma PlainName3() ensures Plain("kernel.yama.ptrace_scope") {
  }

  lemma PlainName4() ensures Plain("kernel.unprivileged_bpf_disabled") {
  }

  lemma PlainNames()
    ensures forall i :: 0 <= i < |TABLE| ==> Plain(TABLE[i].name)
  {
    PlainName0();
    PlainName1();
    PlainName2();
    PlainName3();
    PlainName4();
  }

  predicate Distinct(readings: seq<Reading>) {
    forall i, j :: 0 <= i < j < |readings| ==> readings[i].knob.name != readings[j].knob.name
  }

  lemma TableIsDistinct(kernel: Kernel)
    ensures Distinct(Readings(kernel))
  {
    assert |"kernel.kptr_restrict"| == 20;
    assert |"kernel.dmesg_restrict"| == 21;
    assert |"kernel.perf_event_paranoid"| == 26;
    assert |"kernel.yama.ptrace_scope"| == 24;
    assert |"kernel.unprivileged_bpf_disabled"| == 32;
  }

  lemma SettingsAreWritable(kernel: Kernel)
    ensures forall s :: s in DropInLines(Readings(kernel)) ==> Writable(s) && |s.name| <= 40
  {
    PlainNames();
    forall s | s in DropInLines(Readings(kernel)) ensures Writable(s) && |s.name| <= 40 {
      DropInCovers(Readings(kernel), s.name, s.value);
      var r :| r in Readings(kernel) && r.knob.name == s.name && r.answer.Value? && Desired(r) == s.value;
      var i :| 0 <= i < |TABLE| && r.knob == TABLE[i];
      assert Plain(TABLE[i].name);
    }
  }

  // ---- a boot with only this file ------------------------------------------------------------------

  lemma {:induction false} BootElsewhere(kernel: Kernel, settings: seq<Setting>, name: string)
    requires forall s :: s in settings ==> s.name != name
    ensures Ask(Boot(kernel, settings), name) == Ask(kernel, name)
  {
    if settings != [] {
      var s := settings[0];
      BootElsewhere(if s.name in kernel then kernel[s.name := Written(s.value)] else kernel, settings[1..], name);
    }
  }

  lemma {:induction false} BootAt(kernel: Kernel, readings: seq<Reading>, i: nat)
    requires Distinct(readings) && i < |readings| && readings[i].knob.name in kernel
    ensures Ask(Boot(kernel, DropInLines(readings)), readings[i].knob.name)
              == if readings[i].answer.Value? then Value(Desired(readings[i])) else Ask(kernel, readings[i].knob.name)
  {
    var r, rest := readings[0], readings[1..];
    var after := if r.answer.Value? && r.knob.name in kernel then kernel[r.knob.name := Written(Desired(r))] else kernel;
    assert Boot(kernel, DropInLines(readings)) == Boot(after, DropInLines(rest)) by {
      if r.answer.Value? {
        assert DropInLines(readings)[1..] == DropInLines(rest);
      } else {
        assert DropInLines(readings) == DropInLines(rest);
      }
    }
    if i == 0 {
      forall s | s in DropInLines(rest) ensures s.name != r.knob.name {
        DropInCovers(rest, s.name, s.value);
      }
      BootElsewhere(after, DropInLines(rest), r.knob.name);
      if r.answer.Value? {
        WrittenReads(Desired(r));
      }
    } else {
      BootAt(after, rest, i - 1);
    }
  }

  /** A later boot of the same kernel that applies only this file: every knob that was
      readable ends at the larger of what snug wants and what it was, and a faulted knob
      keeps the boot's own value. */
  lemma BootIsAFloor(kernel: Kernel, later: Kernel, i: nat)
    requires i < |TABLE| && TABLE[i].name in later
    ensures var booted := Boot(later, SettingsOf(Split(Body(DropInLines(Readings(kernel))), '\n')));
            var now := Ask(booted, TABLE[i].name);
            match Ask(kernel, TABLE[i].name)
            case Value(n) => now.Value? && now.n >= TABLE[i].want && now.n >= n && (now.n == n || now.n == TABLE[i].want)
            case _ => now == Ask(later, TABLE[i].name)
  {
    SettingsAreWritable(kernel);
    BodyReadsBack(DropInLines(Readings(kernel)));
    TableIsDistinct(kernel);
    BootAt(later, Readings(kernel), i);
  }

  // ---- the running kernel ---------------------------------------------------------------------------

  // Every weak knob at its want, where the kernel takes the write.
  function Raised(kernel: Kernel, readings: seq<Reading>, refused: set<string>): Kernel
    decreases |readings|
  {
    if readings == [] then kernel
    else
      var r := readings[0];
      Raised(if Weak(r) && r.knob.name !in refused then kernel[r.knob.name := Written(r.knob.want)] else kernel,
             readings[1..], refused)
  }

  lemma {:induction false} RaisedElsewhere(kernel: Kernel, readings: seq<Reading>, refused: set<string>, name: string)
    requires forall i :: 0 <= i < |readings| ==> readings[i].knob.name != name
    decreases |readings|
    ensures Ask(Raised(kernel, readings, refused), name) == Ask(kernel, name)
  {
    if readings != [] {
      var r := readings[0];
      RaisedElsewhere(if Weak(r) && r.knob.name !in refused then kernel[r.knob.name := Written(r.knob.want)] else kernel,
                      readings[1..], refused, name);
    }
  }

  lemma {:induction false} RaisedAt(kernel: Kernel, readings: seq<Reading>, refused: set<string>, i: nat)
    requires Distinct(readings) && i < |readings|
    ensures var r := readings[i];
            Ask(Raised(kernel, readings, refused), r.knob.name)
              == if Weak(r) && r.knob.name !in refused then Value(r.knob.want) else Ask(kernel, r.knob.name)
    decreases |readings|
  {
    var r := readings[0];
    var after := if Weak(r) && r.knob.name !in refused then kernel[r.knob.name := Written(r.knob.want)] else kernel;
    if i == 0 {
      RaisedElsewhere(after, readings[1..], refused, r.knob.name);
      WrittenReads(r.knob.want);
    } else {
      RaisedAt(after, readings[1..], refused, i - 1);
    }
  }

  // The knob is there, as a number below what is wanted.
  predicate Lacks(kernel: Kernel, knob: Knob) {
    Ask(kernel, knob.name).Value? && Ask(kernel, knob.name).n < knob.want
  }

  lemma KernelAfterwards(kernel: Kernel, refused: set<string>)
    ensures var after := Raised(kernel, Readings(kernel), refused);
            && (forall i :: 0 <= i < |TABLE| ==>
                  var was := Ask(kernel, TABLE[i].name);
                  Ask(after, TABLE[i].name) ==
                    if was.Value? && was.n < TABLE[i].want && TABLE[i].name !in refused
                    then Value(TABLE[i].want) else was)
            && (forall name :: (forall i :: 0 <= i < |TABLE| ==> TABLE[i].name != name) ==>
                  Ask(after, name) == Ask(kernel, name))
  {
    var after := Raised(kernel, Readings(kernel), refused);
    TableIsDistinct(kernel);
    forall i | 0 <= i < |TABLE|
      ensures Ask(after, TABLE[i].name) ==
                if Lacks(kernel, TABLE[i]) && TABLE[i].name !in refused
                then Value(TABLE[i].want) else Ask(kernel, TABLE[i].name)
    {
      RaisedAt(kernel, Readings(kernel), refused, i);
    }
    forall name | forall i :: 0 <= i < |TABLE| ==> TABLE[i].name != name
      ensures Ask(after, name) == Ask(kernel, name)
    {
      RaisedElsewhere(kernel, Readings(kernel), refused, name);
    }
  }

  /** No knob of the running kernel is lowered, whatever the kernel refuses; a knob with
      a fault is not touched, and one that takes its write ends strict enough. */
  lemma NeverLowered(kernel: Kernel, refused: set<string>, name: string)
    ensures var after := Ask(Raised(kernel, Readings(kernel), refused), name);
            match Ask(kernel, name)
            case Value(n) => after.Value? && after.n >= n
            case fault => after == fault
    ensures forall i :: 0 <= i < |TABLE| && TABLE[i].name == name && Ask(kernel, name).Value? && name !in refused ==>
              Ask(Raised(kernel, Readings(kernel), refused), name).n >= TABLE[i].want
  {
    KernelAfterwards(kernel, refused);
  }

  // ---- applySysctlFix -------------------------------------------------------------------------------

  const DROP_IN: Name := "00-snug.conf"
  const MAX_DROP_IN := 0x10000
  const UNAVAIL := 69

  /** The host facts: who runs the command and where, which knobs the kernel will not
      take, whether the drop-in's directory is there, where a symlink at the drop-in's
      name leads, and which file operations fail. */
  datatype Setup = Setup(
    euid: nat, inContainer: bool, refused: set<string>, dirThere: bool, through: Option<Content>, f: Faults)

  // hostread.Required: a regular file within the cap, reached through a link if need be.
  function OnDisk(entries: Entries, s: Setup): Option<Content> {
    if s.f.read || DROP_IN !in entries then None
    else
      var content := match entries[DROP_IN]
        case File(c, _) => Some(c)
        case Symlink => s.through
        case Special => None;
      if content.Some? && |content.value| <= MAX_DROP_IN then content else None
  }

  // Whether a run gets as far as writing the drop-in.
  predicate Writes(entries: Entries, readings: seq<Reading>, s: Setup) {
    var settings := DropInLines(readings);
    settings != [] && s.dirThere && OnDisk(entries, s) != Some(Body(settings))
  }

  predicate SomeRefused(readings: seq<Reading>, refused: set<string>) {
    exists i :: 0 <= i < |readings| && Weak(readings[i]) && readings[i].knob.name in refused
  }

  class Host {
    var kernel: Kernel
    const dir: Dir

    constructor (kernel: Kernel, dir: Dir)
      ensures this.kernel == kernel && this.dir == dir
    {
      this.kernel := kernel;
      this.dir := dir;
    }

    // One /proc/sys write for each weak knob; a refusal is remembered and passed over.
    method ApplyWeak(readings: seq<Reading>, refused: set<string>) returns (failed: bool)
      modifies this`kernel
      ensures kernel == Raised(old(kernel), readings, refused)
      ensures failed <==> SomeRefused(readings, refused)
    {
      failed := false;
      var i := 0;
      while i < |readings|
        invariant i <= |readings|
        invariant Raised(kernel, readings[i..], refused) == Raised(old(kernel), readings, refused)
        invariant failed <==> SomeRefused(readings[..i], refused)
      {
        var r := readings[i];
        assert readings[i..][0] == r && readings[i..][1..] == readings[i + 1..];
        SomeRefusedGrows(readings, i, refused);
        if Weak(r) {
          if r.knob.name in refused {
            failed := true;
          } else {
            kernel := kernel[r.knob.name := Written(r.knob.want)];
          }
        }
        i := i + 1;
      }
      assert readings[..i] == readings;
    }

    method ApplySysctlFix(readings: seq<Reading>, s: Setup) returns (code: nat)
      modifies this`kernel, dir
      ensures s.euid != 0 || s.inContainer ==>
                && code == (if s.euid != 0 then 69 else 0)
                && kernel == old(kernel) && dir.entries == old(dir.entries) && dir.past == old(dir.past)
      ensures s.euid == 0 && !s.inContainer ==>
                && kernel == Raised(old(kernel), readings, s.refused)
                && var outcome := if Writes(old(dir.entries), readings, s)
                                  then DropInOutcome(old(dir.entries), DROP_IN, s.f) else None;
                   code == if outcome.Some? || SomeRefused(readings, s.refused) then UNAVAIL else 0
      ensures s.euid == 0 && !s.inContainer && Writes(old(dir.entries), readings, s) ==>
                WroteDropIn(old(dir.entries), dir.entries, old(dir.past), dir.past, Body(DropInLines(readings)), s.f)
      ensures !Writes(old(dir.entries), readings, s) ==>
                dir.entries == old(dir.entries) && dir.past == old(dir.past)
    {
      if s.euid != 0 {
        return UNAVAIL;
      }
      if s.inContainer {
        return 0;
      }
      var failed := ApplyWeak(readings, s.refused);
      var settings := SysctlDropInLines(readings);
      if settings == [] || !s.dirThere {
        return if failed then UNAVAIL else 0;
      }
      var body := Body(settings);
      if OnDisk(dir.entries, s) == Some(body) {
        return if failed then UNAVAIL else 0;
      }
      var err := dir.WriteDropIn(DROP_IN, body, s.f);
      if err.Some? {
        return UNAVAIL;
      }
      return if failed then UNAVAIL else 0;
    }

    /** `snug fix sysctl -w`.  Without root it is refused and in a container there is nothing to
        do, and neither changes a thing.  Otherwise exactly the weak knobs the kernel does not
        refuse are set to their want; and whenever the drop-in's directory is there, nothing
        but an ordinary file is at its name, no leftover is in the way and no call fails, the
        file holds the body afterwards, even where the kernel refused a knob, which alone then
        makes the exit 69. */
    method FixSysctl(s: Setup) returns (code: nat)
      modifies this`kernel, dir
      ensures s.euid != 0 || s.inContainer ==>
                && code == (if s.euid != 0 then 69 else 0)
                && kernel == old(kernel) && dir.entries == old(dir.entries) && dir.past == old(dir.past)
      ensures s.euid == 0 && !s.inContainer ==>
                && (forall i :: 0 <= i < |TABLE| ==>
                      var before := Ask(old(kernel), TABLE[i].name);
                      Ask(kernel, TABLE[i].name) ==
                        if before.Value? && before.n < TABLE[i].want && TABLE[i].name !in s.refused
                        then Value(TABLE[i].want) else before)
                && (forall name :: (forall i :: 0 <= i < |TABLE| ==> TABLE[i].name != name) ==>
                      Ask(kernel, name) == Ask(old(kernel), name))
      ensures s.euid == 0 && !s.inContainer && s.dirThere
              && !s.f.examine && !s.f.create && !s.f.write && !s.f.close && !s.f.rename
              && (DROP_IN in old(dir.entries) ==> old(dir.entries)[DROP_IN].File? && old(dir.entries)[DROP_IN].links <= 1)
              && "." + DROP_IN + ".snug-tmp" !in old(dir.entries) ==>
                && (code == if exists i :: 0 <= i < |TABLE| && Lacks(old(kernel), TABLE[i]) && TABLE[i].name in s.refused
                            then 69 else 0)
                && ((exists i :: 0 <= i < |TABLE| && Ask(old(kernel), TABLE[i].name).Value?) ==>
                      && DROP_IN in dir.entries && dir.entries[DROP_IN].File?
                      && dir.entries[DROP_IN].content == Body(DropInLines(Readings(old(kernel)))))
      ensures code == 0 && s.euid == 0 && !s.inContainer ==>
                forall i :: 0 <= i < |TABLE| && Ask(kernel, TABLE[i].name).Value? ==>
                  Ask(kernel, TABLE[i].name).n >= TABLE[i].want
    {
      var readings := ReadHostSysctls(kernel);
      ghost var before := kernel;
      ghost var entries := dir.entries;
      code := ApplySysctlFix(readings, s);
      if s.euid == 0 && !s.inContainer {
        KernelAfterwards(before, s.refused);
        RefusedIff(before, s.refused);
        FileAfterwards(before, entries, dir.entries, s);
      }
    }
  }

  lemma RefusedIff(kernel: Kernel, refused: set<string>)
    ensures SomeRefused(Readings(kernel), refused) <==>
              exists i :: 0 <= i < |TABLE| && Lacks(kernel, TABLE[i]) && TABLE[i].name in refused
  {
    if i :| 0 <= i < |TABLE| && Lacks(kernel, TABLE[i]) && TABLE[i].name in refused {
      assert Weak(Readings(kernel)[i]);
    }
    if i :| 0 <= i < |TABLE| && Weak(Readings(kernel)[i]) && Readings(kernel)[i].knob.name in refused {
      assert Lacks(kernel, TABLE[i]);
    }
  }

  lemma SettingsIff(kernel: Kernel)
    ensures DropInLines(Readings(kernel)) != [] <==> exists i :: 0 <= i < |TABLE| && Ask(kernel, TABLE[i].name).Value?
  {
    var lines := DropInLines(Readings(kernel));
    if lines != [] {
      DropInCovers(Readings(kernel), lines[0].name, lines[0].value);
      assert lines[0] in lines;
      var r :| r in Readings(kernel) && r.answer.Value?;
      var i :| 0 <= i < |TABLE| && Readings(kernel)[i] == r;
      assert Ask(kernel, TABLE[i].name).Value?;
    }
    if i :| 0 <= i < |TABLE| && Ask(kernel, TABLE[i].name).Value? {
      var r := Readings(kernel)[i];
      assert r in Readings(kernel);
      DropInCovers(Readings(kernel), r.knob.name, Desired(r));
    }
  }

  // Whether it was written or was current already.
  lemma FileAfterwards(kernel: Kernel, before: Entries, after: Entries, s: Setup)
    requires s.dirThere ==>
               !Writes(before, Readings(kernel), s) || DropInOutcome(before, DROP_IN, s.f).Some?
                 || after == before[DROP_IN := Whole(Body(DropInLines(Readings(kernel))))]
    requires !Writes(before, Readings(kernel), s) ==> after == before
    ensures s.dirThere && (DROP_IN in before ==> before[DROP_IN].File?)
            && (Writes(before, Readings(kernel), s) ==> DropInOutcome(before, DROP_IN, s.f).None?)
            && (exists i :: 0 <= i < |TABLE| && Ask(kernel, TABLE[i].name).Value?) ==>
              && DROP_IN in after && after[DROP_IN].File?
              && after[DROP_IN].content == Body(DropInLines(Readings(kernel)))
  {
    SettingsIff(kernel);
  }

  /** What a reader of the file finds in it: each readable knob at the larger of what is wanted
      and what it was, and nothing else. */
  lemma BodySays(kernel: Kernel, name: string, value: Want)
    ensures Setting(name, value) in SettingsOf(Split(Body(DropInLines(Readings(kernel))), '\n')) <==>
              exists i :: 0 <= i < |TABLE| && TABLE[i].name == name && Ask(kernel, name).Value?
                && value == if Ask(kernel, name).n > TABLE[i].want then Ask(kernel, name).n else TABLE[i].want
  {
    SettingsAreWritable(kernel);
    BodyReadsBack(DropInLines(Readings(kernel)));
    DropInCovers(Readings(kernel), name, value);
    if r :| r in Readings(kernel) && r.answer.Value? && r.knob.name == name && Desired(r) == value {
      var i :| 0 <= i < |TABLE| && Readings(kernel)[i] == r;
      assert TABLE[i].name == name;
    }
    if i :| 0 <= i < |TABLE| && TABLE[i].name == name && Ask(kernel, name).Value?
            && value == if Ask(kernel, name).n > TABLE[i].want then Ask(kernel, name).n else TABLE[i].want {
      assert Readings(kernel)[i] in Readings(kernel) && Desired(Readings(kernel)[i]) == value;
    }
  }

  ghost predicate WroteDropIn(
    before: Entries, after: Entries, past: set<Entries>, pastAfter: set<Entries>, body: Content, f: Faults)
  {
    && (DropInOutcome(before, DROP_IN, f).None? ==> after == before[DROP_IN := Whole(body)])
    && (DropInOutcome(before, DROP_IN, f).Some? && (DropInTmp(DROP_IN) in before || !f.remove) ==> after == before)
    && past <= pastAfter
    && forall st :: st in pastAfter - past ==> Harmless(before, before[DROP_IN := Whole(body)], DropInTmp(DROP_IN), st)
  }

  lemma SomeRefusedGrows(readings: seq<Reading>, i: nat, refused: set<string>)
    requires i < |readings|
    ensures SomeRefused(readings[..i + 1], refused)
       <==> SomeRefused(readings[..i], refused) || (Weak(readings[i]) && readings[i].knob.name in refused)
  {
    if k :| 0 <= k < i && Weak(readings[..i][k]) && readings[..i][k].knob.name in refused {
      assert readings[..i + 1][k] == readings[..i][k];
    }
    assert readings[..i + 1][i] == readings[i];
  }

  lemma AllStrict(kernel: Kernel, refused: set<string>)
    requires !SomeRefused(Readings(kernel), refused)
    ensures forall r :: r in Readings(Raised(kernel, Readings(kernel), refused)) && r.answer.Value? ==> StrictEnough(r)
  {
    var after := Raised(kernel, Readings(kernel), refused);
    TableIsDistinct(kernel);
    forall i | 0 <= i < |TABLE| ensures Readings(after)[i].answer.Value? ==> StrictEnough(Readings(after)[i]) {
      RaisedAt(kernel, Readings(kernel), refused, i);
      assert Weak(Readings(kernel)[i]) ==> Readings(kernel)[i].knob.name !in refused;
    }
  }

  // ---- a second run -----------------------------------------------------------------------------------

  lemma {:induction false} SameSettings(a: seq<Reading>, b: seq<Reading>)
    requires |a| == |b|
    requires forall i :: 0 <= i < |a| ==>
               && a[i].knob == b[i].knob && (a[i].answer.Value? <==> b[i].answer.Value?)
               && (a[i].answer.Value? ==> Desired(a[i]) == Desired(b[i]))
    ensures DropInLines(a) == DropInLines(b)
  {
    if a != [] {
      SameSettings(a[1..], b[1..]);
    }
  }

  /** Whatever the kernel took or refused, reading it again asks for the same file. */
  lemma SameFileAfterwards(kernel: Kernel, refused: set<string>)
    ensures DropInLines(Readings(Raised(kernel, Readings(kernel), refused))) == DropInLines(Readings(kernel))
  {
    var after := Raised(kernel, Readings(kernel), refused);
    TableIsDistinct(kernel);
    forall i | 0 <= i < |TABLE|
      ensures var a, b := Readings(after)[i], Readings(kernel)[i];
              && (a.answer.Value? <==> b.answer.Value?)
              && (a.answer.Value? ==> Desired(a) == Desired(b))
    {
      RaisedAt(kernel, Readings(kernel), refused, i);
    }
    SameSettings(Readings(after), Readings(kernel));
  }

  lemma {:induction false} RaisedWithoutWeak(kernel: Kernel, readings: seq<Reading>, refused: set<string>)
    requires forall i :: 0 <= i < |readings| ==> !Weak(readings[i])
    ensures Raised(kernel, readings, refused) == kernel
  {
    if readings != [] {
      RaisedWithoutWeak(kernel, readings[1..], refused);
    }
  }

  lemma {:induction false} TextLength(lines: seq<string>)
    requires forall i :: 0 <= i < |lines| ==> |lines[i]| < 100
    ensures |Text(lines)| <= 100 * |lines|
  {
    if lines != [] {
      TextLength(lines[1..]);
    }
  }

  lemma {:induction false} OneLineEach(readings: seq<Reading>)
    ensures |DropInLines(readings)| <= |readings|
  {
    if readings != [] {
      OneLineEach(readings[1..]);
    }
  }

  // The file fits under the cap its own reader keeps.
  lemma BodyFits(kernel: Kernel)
    ensures |Body(DropInLines(Readings(kernel)))| <= MAX_DROP_IN
  {
    var settings := DropInLines(Readings(kernel));
    SettingsAreWritable(kernel);
    OneLineEach(Readings(kernel));
    forall i | 0 <= i < |settings| ensures |LineOf(settings[i])| < 100 {
      assert Writable(settings[i]);
      IntegerLength(settings[i].value);
    }
    assert |HEADER1| < 100 && |HEADER2| < 100 && |HEADER3| < 100 && |HEADER4| < 100;
    TextLength(HEADER + LinesOf(settings));
  }

  /** After a run whose writes all succeeded the second run raises nothing and writes no
      file. */
  lemma SecondRunIsIdle(kernel: Kernel, entries: Entries, s: Setup)
    requires !SomeRefused(Readings(kernel), s.refused) && !s.f.read
    ensures var after := Raised(kernel, Readings(kernel), s.refused);
            var written := if Writes(entries, Readings(kernel), s)
                           then entries[DROP_IN := Whole(Body(DropInLines(Readings(kernel))))] else entries;
            && Raised(after, Readings(after), s.refused) == after
            && !SomeRefused(Readings(after), s.refused)
            && !Writes(written, Readings(after), s)
  {
    var after := Raised(kernel, Readings(kernel), s.refused);
    SameFileAfterwards(kernel, s.refused);
    AllStrict(kernel, s.refused);
    forall i | 0 <= i < |TABLE| ensures !Weak(Readings(after)[i]) {
      assert Readings(after)[i] in Readings(after);
    }
    RaisedWithoutWeak(after, Readings(after), s.refused);
    BodyFits(kernel);
  }
}
