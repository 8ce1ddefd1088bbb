/**
 `snug engine gc` on one selected store.

 The command runs inside the lock protocol.  Each of its system calls is a step of
 TargetLock.Step, taken from whatever state the other processes have brought about by then,
 and it branches on where the step took it.  So whatever it does is part of an execution of
 the protocol, and StoreSafety and Reclaimer speak of it.
 */
module GcCommand {
  import opened Options
  import opened TargetLock
  import opened StoreSafety
  import opened Reclaimer

  /** What the protocol does not decide: which of the command's calls fail, by attempt or by
      lock file, and what it finds in the run-state records and in the store. */
  datatype World = World(
    attributed: bool, dryRun: bool, setupFails: bool,
    openFails: nat -> bool, flockFails: nat -> bool, statFails: nat -> bool,
    unopenable: Target -> bool, probeFails: Target -> bool, provablyLive: bool,
    openStoreFails: bool, scanStoreFails: bool, foreign: bool,
    renameFails: bool, noTempDir: bool, runrootRenameFails: bool, purgeFails: nat -> bool)

  datatype Hold = Acquired | Busy | HoldFailed

  datatype Liveness = IsLive | NotLive | Unknown

  // A call made in this place is possible in every state.
  predicate Enabled(role: Role, pc: Pc, act: Act) {
    match act
    case Exit => true
    case Open => pc.Trying? && !role.Scan?
    case Flock => pc.Opened? || pc.ScanOpened?
    case CheckLinked => pc.Locked? && !role.Probe?
    case Rename(Image) => (pc.Held? && role.Reclaim?) || pc == Listed({})
    case Rename(Runroot) => pc.Moved?
    case Unlock => pc.Moved? || pc.Disconnected? || pc.ScanLocked? || (pc.Locked? && role.Probe?)
    case Purge(g) => pc.Released? && g in pc.gone
    case List => pc.Trying? && role.Scan?
    case OpenNext(t) => pc.Listed? && t in pc.todo
    case SkipUnopenable(t) => pc.Listed? && t in pc.todo
    case _ => false
  }

  lemma EnabledSteps(s: State, pid: Pid, act: Act)
    requires pid in s.procs && Enabled(s.procs[pid].role, s.procs[pid].pc, act)
    ensures Step(s, pid, act).Some? && Code(act)
    ensures Step(s, pid, act).value.procs[pid]
              == Proc(s.procs[pid].role, NextPc(s, pid, s.procs[pid], act).value, s.procs[pid].gens)
  {
  }

  // Steps of the other processes, any number of them, that the state allows.
  predicate Others(s: State, pid: Pid, more: seq<Label>) {
    (forall l :: l in more ==> l.pid != pid && Code(l.act)) && Exec(s, more).Some?
  }

  lemma {:induction false} OthersLeave(s: State, pid: Pid, more: seq<Label>)
    requires Others(s, pid, more) && pid in s.procs
    ensures pid in Exec(s, more).value.procs && Exec(s, more).value.procs[pid] == s.procs[pid]
    decreases |more|
  {
    if more != [] {
      assert more[0] in more;
      OthersLeave(Step(s, more[0].pid, more[0].act).value, pid, more[1..]);
    }
  }

  lemma {:induction false} NotYetStarted(run: seq<Label>, pid: Pid)
    requires CodeRun(run) && Exec(EMPTY, run).Some? && pid !in Exec(EMPTY, run).value.procs
    ensures Own(run, pid) == []
    decreases |run|
  {
    if run != [] {
      var before, l, s := LastStep(run);
      StepTouchesOne(s, l.pid, l.act);
      NotYetStarted(before, pid);
      OwnThen(before, pid, l);
    }
  }

  // The last step of the run is this process's flock, and it met a conflicting lock.
  ghost predicate Contended(run: seq<Label>, pid: Pid) {
    && run != [] && run[|run| - 1] == Label(pid, Flock)
    && Exec(EMPTY, run[..|run| - 1]).Some?
    && var s := Exec(EMPTY, run[..|run| - 1]).value;
       pid in s.procs && InoOf(s.procs[pid]).Some? && Conflict(s, pid, InoOf(s.procs[pid]).value)
  }

  // The last step is its link check, and the name was gone or led elsewhere.
  ghost predicate SweptAway(run: seq<Label>, pid: Pid) {
    && run != [] && run[|run| - 1] == Label(pid, CheckLinked)
    && Exec(EMPTY, run[..|run| - 1]).Some?
    && var s := Exec(EMPTY, run[..|run| - 1]).value;
       pid in s.procs && LockIno(s.procs[pid]).Some? && !Linked(s, LockIno(s.procs[pid]).value)
  }

  function RoleFor(w: World, t: Target): Role {
    if !w.attributed then Scan(t) else if w.dryRun then Probe(t) else Reclaim(t)
  }

  predicate FailsAt(w: World, attempt: nat) {
    w.openFails(attempt) || w.flockFails(attempt) || w.statFails(attempt)
  }

  // Some call of the liveness question failed.
  ghost predicate CallFails(w: World) {
    || w.setupFails || (exists t :: w.probeFails(t))
    || exists k: nat :: k < ATTEMPTS && FailsAt(w, k)
  }

  // The steps of an attempt at the lock that misses: it meets a lock, or its file is swept away.
  function Attempt(contended: bool): seq<Act> { if contended then [Open, Flock] else [Open, Flock, CheckLinked] }

  function Attempts(misses: seq<bool>): seq<Act> {
    if misses == [] then [] else Attempts(misses[..|misses| - 1]) + Attempt(misses[|misses| - 1])
  }

  lemma OneMoreMiss(before: seq<Act>, misses: seq<bool>, contended: bool)
    ensures (before + Attempts(misses)) + Attempt(contended) == before + Attempts(misses + [contended])
  {
    assert (misses + [contended])[..|misses|] == misses;
  }

  // What a probe's own steps say of its answer.
  predicate ProbeTold(w: World, live: Liveness, asked: seq<Act>) {
    || (asked == [Open] && live == NotLive)
    || (asked == [Open, Flock] && live == IsLive)
    || (asked == [Open, Flock, Unlock] && live == if w.provablyLive then IsLive else NotLive)
    || (asked == [Exit] && live == Unknown && w.openFails(0))
    || (asked == [Open, Exit] && live == Unknown && w.flockFails(0))
  }

  predicate RunrootToo(w: World) { !w.noTempDir && !w.runrootRenameFails }

  function Elements(g: Option<nat>): set<nat> { if g.Some? then {g.value} else {} }

  function Deletion(g: Option<nat>, w: World): seq<Act> {
    if g.Some? && !w.purgeFails(g.value) then [Purge(g.value)] else []
  }

  function Renames(w: World): seq<Act> {
    if RunrootToo(w) then [Rename(Image), Rename(Runroot)] else [Rename(Image)]
  }

  function Deletions(image: Option<nat>, runroot: Option<nat>, w: World): seq<Act> {
    Deletion(image, w) + Deletion(runroot, w) + [Exit]
  }

  // The two phases as one process's steps, when the renames find these generations.
  function Phases(w: World, image: Option<nat>, runroot: Option<nat>): seq<Act> {
    Renames(w) + [Unlock] + Deletions(image, runroot, w)
  }

  lemma AppendRight(s: seq<Act>, a: seq<Act>, b: seq<Act>)
    ensures (s + a) + b == s + (a + b)
  {
  }

  lemma AppendThree(s: seq<Act>, a: seq<Act>, b: seq<Act>, c: seq<Act>)
    ensures ((s + a) + b) + c == s + ((a + b) + c)
  {
  }

  // Neither renamed nor deleted anything yet.
  predicate Harmless(own: seq<Act>) { forall a :: a in own ==> !a.Rename? && !a.Purge? }

  // Every lock file passed over could not be opened.
  predicate SkipsJustified(own: seq<Act>, w: World) {
    forall a :: a in own && a.SkipUnopenable? ==> w.unopenable(a.next)
  }

  // The run's last step is this process's, from p to pc.
  ghost predicate Took(run: seq<Label>, pid: Pid, p: Proc, act: Act, pc: Pc) {
    && run != [] && run[|run| - 1] == Label(pid, act)
    && Exec(EMPTY, run[..|run| - 1]).Some?
    && var s := Exec(EMPTY, run[..|run| - 1]).value;
       pid in s.procs && s.procs[pid] == p && NextPc(s, pid, p, act) == Some(pc)
  }

  // What is known of where a step leads, whatever state it is taken from.
  lemma OpenLeads(run: seq<Label>, pid: Pid, p: Proc, pc: Pc)
    requires Took(run, pid, p, Open, pc) && (p.role.Reclaim? || p.role.Probe?)
    ensures pc.Opened? || (p.role.Probe? && pc.SaidIdle?)
    ensures pc.Opened? ==> pc.attempt == p.pc.attempt
  {
  }

  lemma FlockLeads(run: seq<Label>, pid: Pid, p: Proc, pc: Pc)
    requires Took(run, pid, p, Flock, pc) && (p.pc.Opened? || p.pc.ScanOpened?)
    ensures Contended(run, pid) <==> !pc.Locked? && !pc.ScanLocked?
    ensures p.pc.Opened? && pc.Locked? ==> pc.attempt == p.pc.attempt
    ensures p.pc.Opened? && !pc.Locked? ==> pc == Retry(p, p.pc.attempt)
    ensures p.pc.ScanOpened? && pc.ScanLocked? ==> pc == ScanLocked(p.pc.ino, p.pc.todo - {p.pc.ino.target})
    ensures p.pc.ScanOpened? && !pc.ScanLocked? ==> pc == Ended
  {
  }

  lemma CheckLeads(run: seq<Label>, pid: Pid, p: Proc, pc: Pc)
    requires Took(run, pid, p, CheckLinked, pc) && p.pc.Locked? && p.role.Reclaim?
    ensures SweptAway(run, pid) <==> !pc.Held?
    ensures !pc.Held? ==> pc == Retry(p, p.pc.attempt)
  {
  }

  lemma NextLeads(run: seq<Label>, pid: Pid, p: Proc, t: Target, pc: Pc)
    requires CodeRun(run) && Took(run, pid, p, OpenNext(t), pc) && p.pc.Listed?
    ensures pc == Listed(p.pc.todo - {t}) || (pc.ScanOpened? && pc.ino.target == t && pc.todo == p.pc.todo)
  {
    var before := run[..|run| - 1];
    assert CodeRun(before) by { assert forall l :: l in before ==> l in run; }
    ExecKeepsLockInv(EMPTY, before);
  }

  // Where a negative answer leaves the process.
  predicate IdleAt(w: World, p: Proc) {
    if !w.attributed then p.pc == Listed({}) else if w.dryRun then p.pc == SaidIdle else p.pc.Held? && p.role.Reclaim?
  }

  lemma IdleCanRename(w: World, p: Proc)
    requires IdleAt(w, p) && !w.dryRun
    ensures Enabled(p.role, p.pc, Rename(Image))
  {
  }

  // Holding nothing: not begun, answered, or over.
  predicate Resting(pc: Pc) { pc == Trying(0) || pc == SaidIdle || pc == Ended }

  predicate ActsWell(w: World) { !w.openStoreFails && !w.scanStoreFails && (w.foreign || w.dryRun || !w.renameFails) }

  predicate AskedThen(before: seq<Act>, own: seq<Act>, asked: seq<Act>) {
    own == before + asked || own == (before + asked) + [Exit]
  }

  // What acting on an idle store leaves among a process's steps.
  ghost predicate Acted(own: seq<Act>, w: World, found: set<nat>) {
    && (Rename(Image) in own <==>
          !w.openStoreFails && !w.scanStoreFails && !w.foreign && !w.dryRun && !w.renameFails)
    && (Rename(Runroot) in own <==> Rename(Image) in own && !w.noTempDir && !w.runrootRenameFails)
    && (forall g :: Purge(g) in own <==> Rename(Image) in own && g in found && !w.purgeFails(g))
    && (Rename(Image) in own ==> Reclaimed(own, w, found))
  }

  lemma HarmlessHolds(own: seq<Act>)
    requires Harmless(own)
    ensures Rename(Image) !in own && Rename(Runroot) !in own && forall g :: Purge(g) !in own
  {
  }

  lemma NothingDone(own: seq<Act>, w: World, found: set<nat>)
    requires Harmless(own) && (w.openStoreFails || w.scanStoreFails || w.foreign || w.dryRun || w.renameFails)
    ensures Acted(own, w, found)
  {
  }

  lemma PhasesDo(before: seq<Act>, w: World, image: Option<nat>, runroot: Option<nat>)
    requires Harmless(before)
    requires !w.openStoreFails && !w.scanStoreFails && !w.foreign && !w.dryRun && !w.renameFails
    ensures Acted(before + Phases(w, image, runroot), w, Elements(image) + Elements(runroot))
  {
    var own, found := before + Phases(w, image, runroot), Elements(image) + Elements(runroot);
    assert Reclaimed(own, w, found);
    PhasesHold(w, image, runroot);
    assert forall a :: a in own <==> a in before || a in Phases(w, image, runroot);
  }

  lemma PhasesHold(w: World, image: Option<nat>, runroot: Option<nat>)
    ensures var ph := Phases(w, image, runroot);
            && Rename(Image) in ph
            && (Rename(Runroot) in ph <==> !w.noTempDir && !w.runrootRenameFails)
            && forall g :: Purge(g) in ph <==> g in Elements(image) + Elements(runroot) && !w.purgeFails(g)
  {
    var ph := Phases(w, image, runroot);
    assert forall a :: a in ph <==>
      a in Renames(w) || a == Unlock || a in Deletion(image, w) || a in Deletion(runroot, w) || a == Exit;
    assert Rename(Image) == Renames(w)[0];
    assert RunrootToo(w) ==> Rename(Runroot) == Renames(w)[1];
    forall g ensures Purge(g) in Deletion(image, w) <==> g in Elements(image) && !w.purgeFails(g) {
      assert Purge(g) in Deletion(image, w) ==> Purge(g) == Deletion(image, w)[0];
    }
    forall g ensures Purge(g) in Deletion(runroot, w) <==> g in Elements(runroot) && !w.purgeFails(g) {
      assert Purge(g) in Deletion(runroot, w) ==> Purge(g) == Deletion(runroot, w)[0];
    }
  }

  // The steps end in both phases, and delete what the renames found.
  ghost predicate Reclaimed(own: seq<Act>, w: World, found: set<nat>) {
    exists before, image, runroot ::
      own == before + Phases(w, image, runroot) && Harmless(before) && found == Elements(image) + Elements(runroot)
  }

  lemma PurgeLeads(run: seq<Label>, pid: Pid, p: Proc, g: nat, pc: Pc)
    requires Took(run, pid, p, Purge(g), pc) && p.pc.Released?
    ensures pc == Released(p.pc.gone - {g})
  {
  }

  // The directory renamed is not one already aside.
  lemma RenameLeads(run: seq<Label>, pid: Pid, p: Proc, part: Part, pc: Pc) returns (moved: Option<nat>)
    requires Took(run, pid, p, Rename(part), pc)
    ensures part == Image ==> pc.Moved? && pc.gone == Elements(moved)
    ensures part == Runroot ==>
              pc.Disconnected? && p.pc.Moved? && pc.gone == p.pc.gone + Elements(moved) && Elements(moved) !! p.pc.gone
  {
    var before := run[..|run| - 1];
    var s, slot := Exec(EMPTY, before).value, Slot(p.role.target, part);
    moved := if slot in s.store then Some(s.store[slot]) else None;
    forall g | g in GoneOf(p) ensures g !in Elements(moved) {
      PurgeTouchesNoStore(before, pid, g);
    }
  }

  class Collector {
    const pid: Pid
    const w: World
    const others: nat -> seq<Label>  // what the others do before each step of this process
    var state: State
    ghost var run: seq<Label>        // every step anyone has taken
    ghost var steps: seq<Act>        // this process's own
    var taken: nat
    ghost var found: set<nat>        // what its renames had found when it unlocked

    ghost predicate Valid() reads this {
      && CodeRun(run) && Exec(EMPTY, run) == Some(state) && pid in state.procs
      && steps == Own(run, pid) && SkipsJustified(steps, w)
    }

    function Here(): Proc
      requires pid in state.procs
      reads this
    {
      state.procs[pid]
    }

    // Any reachable state in which the process has just been started.
    constructor (pid: Pid, w: World, role: Role, ghost past: seq<Label>, state: State, others: nat -> seq<Label>)
      requires CodeRun(past) && Exec(EMPTY, past) == Some(state) && pid !in state.procs
      ensures Valid() && this.pid == pid && this.w == w && Here() == Proc(role, Trying(0), map[]) && steps == [Spawn(role)]
    {
      NotYetStarted(past, pid);
      ExecThen(EMPTY, past, Label(pid, Spawn(role)));
      OwnThen(past, pid, Label(pid, Spawn(role)));
      this.pid, this.w, this.others, taken, found := pid, w, others, 0, {};
      this.state := state.(procs := state.procs[pid := Proc(role, Trying(0), map[])]);
      run, steps := past + [Label(pid, Spawn(role))], [Spawn(role)];
    }

    // Whatever the others do in the meantime.
    method LetOthersRun()
      requires Valid()
      modifies this
      ensures Valid() && Here() == old(Here()) && steps == old(steps) && found == old(found)
    {
      var more := others(taken);
      if Others(state, pid, more) {
        OthersLeave(state, pid, more);
        ExecMore(EMPTY, run, more);
        OwnUnchanged(run, pid, more);
        state := Exec(state, more).value;
        run := run + more;
      }
      taken := taken + 1;
    }

    // One system call.
    method Take(act: Act) returns (pc: Pc)
      requires Valid() && Enabled(Here().role, Here().pc, act) && (act.SkipUnopenable? ==> w.unopenable(act.next))
      modifies this
      ensures Valid() && Here().role == old(Here().role) && Here().pc == pc
      ensures steps == old(steps) + [act] && Took(run, pid, old(Here()), act, pc)
      ensures found == if act == Unlock && pc.Released? then pc.gone else old(found)
      ensures Harmless(old(steps)) && !act.Rename? && !act.Purge? ==> Harmless(steps)
      ensures (act != Flock ==> !Contended(run, pid)) && (act != CheckLinked ==> !SweptAway(run, pid))
    {
      LetOthersRun();
      EnabledSteps(state, pid, act);
      ExecThen(EMPTY, run, Label(pid, act));
      OwnThen(run, pid, Label(pid, act));
      ghost var before := run;
      state := Step(state, pid, act).value;
      run, steps := run + [Label(pid, act)], steps + [act];
      assert run[..|run| - 1] == before;
      pc := Here().pc;
      found := if act == Unlock && pc.Released? then pc.gone else found;
    }

    // The lock file of the target, created if need be by a reclaimer.
    method OpenFile() returns (there: bool)
      requires Valid() && Here().pc.Trying? && (Here().role.Reclaim? || Here().role.Probe?)
      modifies this
      ensures Valid() && Here().role == old(Here().role) && steps == old(steps) + [Open]
      ensures Harmless(old(steps)) ==> Harmless(steps)
      ensures there ==> Here().pc.Opened? && Here().pc.attempt == old(Here().pc.attempt)
      ensures !there ==> Here().role.Probe? && Here().pc == SaidIdle
      ensures !Contended(run, pid)
    {
      ghost var p := Here();
      var pc := Take(Open);
      OpenLeads(run, pid, p, pc);
      there := pc.Opened?;
    }

    // flock without waiting.
    method TryFlock() returns (got: bool)
      requires Valid() && Here().pc.Opened?
      modifies this
      ensures Valid() && Here().role == old(Here().role) && steps == old(steps) + [Flock]
      ensures Harmless(old(steps)) ==> Harmless(steps)
      ensures got <==> !Contended(run, pid)
      ensures got ==> Here().pc.Locked? && Here().pc.attempt == old(Here().pc.attempt)
      ensures !got ==> Here().pc == Retry(old(Here()), old(Here().pc.attempt))
    {
      ghost var p := Here();
      var pc := Take(Flock);
      FlockLeads(run, pid, p, pc);
      got := pc.Locked?;
    }

    // Whether the file locked is still the one at the name.
    method StillLinked() returns (linked: bool)
      requires Valid() && Here().role.Reclaim? && Here().pc.Locked?
      modifies this
      ensures Valid() && Here().role == old(Here().role) && steps == old(steps) + [CheckLinked]
      ensures Harmless(old(steps)) ==> Harmless(steps)
      ensures linked <==> Here().pc.Held?
      ensures !linked <==> SweptAway(run, pid)
      ensures !Contended(run, pid)
      ensures !linked ==> Here().pc == Retry(old(Here()), old(Here().pc.attempt))
    {
      ghost var p := Here();
      var pc := Take(CheckLinked);
      CheckLeads(run, pid, p, pc);
      linked := pc.Held?;
    }

    method GiveUp()
      requires Valid()
      modifies this
      ensures Valid() && Here().role == old(Here().role) && Here().pc == Ended
      ensures steps == old(steps) + [Exit] && found == old(found)
      ensures Harmless(old(steps)) ==> Harmless(steps)
      ensures !Contended(run, pid) && !SweptAway(run, pid)
    {
      var _ := Take(Exit);
    }

    // An attempt whose file is open.
    method TryOpened(attempt: nat) returns (hold: Option<Hold>, contended: bool)
      requires Valid() && Here().role.Reclaim? && Here().pc.Opened? && Here().pc.attempt == attempt < ATTEMPTS
      requires Harmless(steps)
      modifies this
      ensures Valid() && Here().role == old(Here().role) && Harmless(steps)
      ensures hold.None? ==> steps == old(steps) + if contended then [Flock] else [Flock, CheckLinked]
      ensures hold == Some(Acquired) ==> steps == old(steps) + [Flock, CheckLinked]
      ensures hold == Some(Acquired) <==> Here().pc.Held?
      ensures hold.Some? ==> hold.value in {Acquired, HoldFailed} && !Contended(run, pid) && !SweptAway(run, pid)
      ensures hold == Some(HoldFailed) ==> FailsAt(w, attempt) && Here().pc == Ended
      ensures hold.None? ==> (contended <==> Contended(run, pid)) && (contended || SweptAway(run, pid))
      ensures hold.None? ==> Here().pc == if attempt + 1 < ATTEMPTS then Trying(attempt + 1) else Ended
    {
      if w.flockFails(attempt) {
        GiveUp();
        return Some(HoldFailed), false;
      }
      var got := TryFlock();
      if !got {
        return None, true;
      }
      if w.statFails(attempt) {
        GiveUp();
        return Some(HoldFailed), false;
      }
      var linked := StillLinked();
      return if linked then Some(Acquired) else None, false;
    }

    // One attempt at the lock: its result, or None to go round again.
    method TryHold(attempt: nat) returns (hold: Option<Hold>, contended: bool)
      requires Valid() && Here().role.Reclaim? && Here().pc == Trying(attempt) && attempt < ATTEMPTS
      requires Harmless(steps)
      modifies this
      ensures Valid() && Here().role == old(Here().role) && Harmless(steps)
      ensures hold.None? ==> steps == old(steps) + Attempt(contended)
      ensures hold == Some(Acquired) ==> steps == old(steps) + [Open, Flock, CheckLinked]
      ensures hold == Some(Acquired) <==> Here().pc.Held?
      ensures hold.Some? ==> hold.value in {Acquired, HoldFailed} && !Contended(run, pid) && !SweptAway(run, pid)
      ensures hold == Some(HoldFailed) ==> FailsAt(w, attempt) && Here().pc == Ended
      ensures hold.None? ==> (contended <==> Contended(run, pid)) && (contended || SweptAway(run, pid))
      ensures hold.None? ==> Here().pc == if attempt + 1 < ATTEMPTS then Trying(attempt + 1) else Ended
    {
      if w.openFails(attempt) {
        GiveUp();
        return Some(HoldFailed), false;
      }
      var _ := OpenFile();
      hold, contended := TryOpened(attempt);
    }

    /** openAndHoldTargetLock with LOCK_EX: four attempts.  The lock is had at the first that
        is neither contended nor swept away.  The target is busy when all four missed and the
        last met a lock; otherwise they all missed and the last was swept away, or a call
        failed at the attempt after the misses. */
    method OpenAndHold() returns (hold: Hold, ghost misses: seq<bool>)
      requires Valid() && Here().role.Reclaim? && Here().pc == Trying(0) && Harmless(steps)
      modifies this
      ensures Valid() && Here().role == old(Here().role) && Harmless(steps)
      ensures hold == Acquired <==> Here().pc.Held?
      ensures hold != Acquired ==> Here().pc == Ended
      ensures hold == Busy <==> Contended(run, pid)
      ensures hold == Acquired ==>
                |misses| < ATTEMPTS && steps == (old(steps) + Attempts(misses)) + [Open, Flock, CheckLinked]
      ensures hold == Busy ==>
                |misses| == ATTEMPTS && misses[ATTEMPTS - 1] && steps == old(steps) + Attempts(misses)
      ensures hold == HoldFailed ==>
                if |misses| < ATTEMPTS then FailsAt(w, |misses|)
                else SweptAway(run, pid) && !misses[|misses| - 1] && steps == old(steps) + Attempts(misses)
    {
      var attempt := 0;
      var contended := false;
      misses := [];
      while attempt < ATTEMPTS
        invariant attempt <= ATTEMPTS && Valid() && Here().role == old(Here().role) && Harmless(steps)
        invariant Here().pc == if attempt < ATTEMPTS then Trying(attempt) else Ended
        invariant attempt > 0 ==> (contended <==> Contended(run, pid)) && (contended || SweptAway(run, pid))
        invariant |misses| == attempt && (attempt > 0 ==> misses[attempt - 1] == contended)
        invariant steps == old(steps) + Attempts(misses)
      {
        var tried;
        tried, contended := TryHold(attempt);
        if tried.Some? {
          return tried.value, misses;
        }
        OneMoreMiss(old(steps), misses, contended);
        misses := misses + [contended];
        attempt := attempt + 1;
      }
      return if contended then Busy else HoldFailed, misses;
    }

    /** targetLive in its probing mode: it creates nothing and keeps nothing.  No file is not
        live, a lock met is, and an unheld lock is exactly if a record says so. */
    method ProbeTarget() returns (live: Liveness, ghost asked: seq<Act>)
      requires Valid() && Here().role.Probe? && Here().pc == Trying(0) && Harmless(steps)
      modifies this
      ensures Valid() && Here().role == old(Here().role) && Harmless(steps) && steps == old(steps) + asked
      ensures Here().pc in {SaidIdle, Ended} && (live == NotLive ==> Here().pc == SaidIdle)
      ensures ProbeTold(w, live, asked)
      ensures live == IsLive ==> Contended(run, pid) || w.provablyLive
    {
      if w.openFails(0) {
        GiveUp();
        return Unknown, [Exit];
      }
      var there := OpenFile();
      if !there {
        return NotLive, [Open];
      }
      if w.flockFails(0) {
        GiveUp();
        return Unknown, [Open, Exit];
      }
      ghost var rest;
      live, rest := ProbeLock();
      asked := [Open] + rest;
      AppendRight(old(steps), [Open], rest);
    }

    // An opened lock file: a lock met, or one that is let go again.
    method ProbeLock() returns (live: Liveness, ghost asked: seq<Act>)
      requires Valid() && Here().role.Probe? && Here().pc.Opened? && Harmless(steps)
      modifies this
      ensures Valid() && Here().role == old(Here().role) && Harmless(steps) && steps == old(steps) + asked
      ensures Here().pc in {SaidIdle, Ended} && (live == NotLive ==> Here().pc == SaidIdle)
      ensures asked == [Flock] || asked == [Flock, Unlock]
      ensures asked == [Flock] ==> live == IsLive && Contended(run, pid)
      ensures asked == [Flock, Unlock] ==> live == if w.provablyLive then IsLive else NotLive
    {
      var got := TryFlock();
      if !got {
        return IsLive, [Flock];
      }
      var _ := Take(Unlock);
      return if w.provablyLive then IsLive else NotLive, [Flock, Unlock];
    }

    // A listed lock file opened, if it is still there.
    method OpenListed(t: Target) returns (there: bool)
      requires Valid() && Here().role.Scan? && Here().pc.Listed? && t in Here().pc.todo
      modifies this
      ensures Valid() && Here().role == old(Here().role) && steps == old(steps) + [OpenNext(t)]
      ensures Harmless(old(steps)) ==> Harmless(steps)
      ensures !Contended(run, pid)
      ensures there ==> Here().pc.ScanOpened? && Here().pc.ino.target == t && Here().pc.todo == old(Here().pc.todo)
      ensures !there ==> Here().pc == Listed(old(Here().pc.todo) - {t})
    {
      ghost var p := Here();
      var pc := Take(OpenNext(t));
      NextLeads(run, pid, p, t, pc);
      there := pc.ScanOpened?;
    }

    // Its lock tried.
    method FlockListed() returns (got: bool)
      requires Valid() && Here().pc.ScanOpened?
      modifies this
      ensures Valid() && Here().role == old(Here().role) && steps == old(steps) + [Flock]
      ensures Harmless(old(steps)) ==> Harmless(steps)
      ensures got <==> !Contended(run, pid)
      ensures got ==> Here().pc.ScanLocked? && Here().pc.todo == old(Here().pc.todo) - {old(Here().pc.ino.target)}
      ensures !got ==> Here().pc == Ended
    {
      ghost var p := Here();
      var pc := Take(Flock);
      FlockLeads(run, pid, p, pc);
      got := pc.ScanLocked?;
    }

    method LetListedGo()
      requires Valid() && Here().pc.ScanLocked?
      modifies this
      ensures Valid() && Here().role == old(Here().role) && Here().pc == Listed(old(Here().pc.todo))
      ensures Harmless(old(steps)) ==> Harmless(steps)
      ensures !Contended(run, pid)
    {
      var _ := Take(Unlock);
    }

    // An opened lock file: taken by someone, or tried and let go again.
    method ProbeOpened() returns (answer: Option<Liveness>)
      requires Valid() && Here().role.Scan? && Here().pc.ScanOpened?
      requires Harmless(steps)
      modifies this
      ensures Valid() && Here().role == old(Here().role) && Harmless(steps)
      ensures answer.None? ==> Here().pc == Listed(old(Here().pc.todo) - {old(Here().pc.ino.target)})
      ensures answer.Some? ==> Here().pc == Ended && answer.value in {IsLive, Unknown}
      ensures answer == Some(IsLive) <==> Contended(run, pid)
      ensures answer == Some(Unknown) ==> w.probeFails(old(Here().pc.ino.target))
    {
      if w.probeFails(Here().pc.ino.target) {
        GiveUp();
        return Some(Unknown);
      }
      var got := FlockListed();
      if !got {
        return Some(IsLive);
      }
      LetListedGo();
      return None;
    }

    // One listed lock file: the scan's answer, or None to go on.
    method ProbeNext(t: Target) returns (answer: Option<Liveness>)
      requires Valid() && Here().role.Scan? && Here().pc.Listed? && t in Here().pc.todo
      requires Harmless(steps)
      modifies this
      ensures Valid() && Here().role == old(Here().role) && Harmless(steps)
      ensures answer.None? ==> Here().pc == Listed(old(Here().pc.todo) - {t})
      ensures answer.Some? ==> Here().pc == Ended && answer.value in {IsLive, Unknown}
      ensures answer == Some(IsLive) <==> Contended(run, pid)
      ensures answer == Some(Unknown) ==> w.probeFails(t)
    {
      if w.unopenable(t) {
        var _ := Take(SkipUnopenable(t));
        return None;
      }
      var there := OpenListed(t);
      if !there {
        return None;
      }
      answer := ProbeOpened();
    }

    /** anyRunLive: every listed lock file is probed, in any order, and every lock taken on the
        way released; a negative answer means that none of the list is left. */
    method AnyRunLive() returns (live: Liveness)
      requires Valid() && Here().role.Scan? && Here().pc == Trying(0)
      requires Harmless(steps)
      modifies this
      ensures Valid() && Here().role == old(Here().role) && Harmless(steps)
      ensures Here().pc == if live == NotLive then Listed({}) else Ended
      ensures live == IsLive <==> Contended(run, pid)
      ensures live == Unknown ==> CallFails(w)
    {
      var pc := Take(List);
      var todo := pc.todo;
      while todo != {}
        invariant Valid() && Here().role == old(Here().role) && Harmless(steps)
        invariant Here().pc == Listed(todo) && !Contended(run, pid)
        decreases |todo|
      {
        var t :| t in todo;
        var answer := ProbeNext(t);
        if answer.Some? {
          return answer.value;
        }
        todo := todo - {t};
      }
      return NotLive;
    }

    // targetLive in its holding mode: the lock, unless a record names a live run all the same.
    method HoldTarget() returns (live: Liveness)
      requires Valid() && Here().role.Reclaim? && Here().pc == Trying(0) && Harmless(steps)
      modifies this
      ensures Valid() && Here().role == old(Here().role) && Harmless(steps)
      ensures if live == NotLive then Here().pc.Held? && !w.provablyLive else Here().pc == Ended
      ensures live == IsLive ==> Contended(run, pid) || w.provablyLive
      ensures live == Unknown ==> CallFails(w) || SweptAway(run, pid)
    {
      var hold;
      ghost var misses;
      hold, misses := OpenAndHold();
      if hold == Acquired && w.provablyLive {
        GiveUp();
        return IsLive;
      }
      return match hold case Acquired => NotLive case Busy => IsLive case HoldFailed => Unknown;
    }

    // targetLive: its mode is the dry run's or the real one's.
    method TargetLive() returns (live: Liveness, ghost asked: seq<Act>)
      requires Valid() && w.attributed && Here().role == RoleFor(w, Here().role.target)
      requires Here().pc == Trying(0) && Harmless(steps)
      modifies this
      ensures Valid() && Here().role == old(Here().role) && Harmless(steps)
      ensures live == NotLive ==> if w.dryRun then Here().pc == SaidIdle else Here().pc.Held? && !w.provablyLive
      ensures live != NotLive ==> Here().pc in {SaidIdle, Ended}
      ensures live == IsLive ==> Contended(run, pid) || w.provablyLive
      ensures live == Unknown ==> CallFails(w) || SweptAway(run, pid)
      ensures w.dryRun ==> steps == old(steps) + asked && ProbeTold(w, live, asked)
    {
      asked := [];
      if w.dryRun {
        live, asked := ProbeTarget();
        assert w.openFails(0) || w.flockFails(0) ==> FailsAt(w, 0);
      } else {
        live := HoldTarget();
      }
    }

    /** The liveness question: holding the target's lock for a real removal, probing it for a
        dry run, scanning for a store without a target.  A negative answer to the first comes
        with the lock still held. */
    method AskLiveness() returns (live: Liveness, ghost asked: seq<Act>)
      requires Valid() && Here().role == RoleFor(w, Here().role.target) && Here().pc == Trying(0)
      requires Harmless(steps)
      modifies this
      ensures Valid() && Here().role == old(Here().role) && Harmless(steps)
      ensures live == NotLive ==>
                if !w.attributed then Here().pc == Listed({})
                else if w.dryRun then Here().pc == SaidIdle
                else Here().pc.Held? && !w.provablyLive
      ensures live != NotLive ==> Resting(Here().pc)
      ensures live == IsLive ==> Contended(run, pid) || (w.attributed && w.provablyLive)
      ensures live == Unknown ==> CallFails(w) || SweptAway(run, pid)
      ensures w.attributed && w.dryRun && !w.setupFails ==> steps == old(steps) + asked && ProbeTold(w, live, asked)
    {
      asked := [];
      if w.setupFails {
        return Unknown, asked;
      }
      if !w.attributed {
        live := AnyRunLive();
      } else {
        live, asked := TargetLive();
      }
    }

    // What RenameAside disconnects, if the directory was there.
    method RenameOne(part: Part) returns (moved: Option<nat>)
      requires Valid() && Enabled(Here().role, Here().pc, Rename(part))
      modifies this
      ensures Valid() && Here().role == old(Here().role) && steps == old(steps) + [Rename(part)]
      ensures if part == Image then Here().pc.Moved? else Here().pc.Disconnected?
      ensures Here().pc.gone == (if part == Image then {} else old(Here().pc.gone)) + Elements(moved)
      ensures part == Runroot ==> Elements(moved) !! old(Here().pc.gone)
    {
      ghost var p := Here();
      var before := if Here().pc.Moved? then Here().pc.gone else {};
      var pc := Take(Rename(part));
      ghost var told := RenameLeads(run, pid, p, part, pc);
      var moves := pc.gone - before;
      assert moves == Elements(told);
      if moves == {} {
        return None;
      }
      var g :| g in moves;
      return Some(g);
    }

    // A deletion that stops leaves the directory aside.
    method PurgeOne(g: Option<nat>)
      requires Valid() && Here().pc.Released? && Elements(g) <= Here().pc.gone
      modifies this
      ensures Valid() && Here().role == old(Here().role) && steps == old(steps) + Deletion(g, w)
      ensures Here().pc.Released? && old(Here().pc.gone) - Elements(g) <= Here().pc.gone && found == old(found)
    {
      if g.Some? && !w.purgeFails(g.value) {
        ghost var p := Here();
        var pc := Take(Purge(g.value));
        PurgeLeads(run, pid, p, g.value, pc);
      }
    }

    method RenameBoth() returns (image: Option<nat>, runroot: Option<nat>)
      requires Valid() && Enabled(Here().role, Here().pc, Rename(Image))
      modifies this
      ensures Valid() && Here().role == old(Here().role) && steps == old(steps) + Renames(w)
      ensures Here().pc.Moved? || Here().pc.Disconnected?
      ensures Here().pc.gone == Elements(image) + Elements(runroot) && Elements(image) !! Elements(runroot)
    {
      runroot := None;
      image := RenameOne(Image);
      if RunrootToo(w) {
        runroot := RenameOne(Runroot);
      }
    }

    // The lock is let go, if there is one.
    method LetGo()
      requires Valid() && (Here().pc.Moved? || Here().pc.Disconnected?)
      modifies this
      ensures Valid() && Here().role == old(Here().role) && Here().pc == Released(old(Here().pc.gone))
      ensures steps == old(steps) + [Unlock] && found == old(Here().pc.gone)
    {
      var _ := Take(Unlock);
    }

    method DeleteBoth(image: Option<nat>, runroot: Option<nat>)
      requires Valid() && Here().pc == Released(Elements(image) + Elements(runroot))
      requires Elements(image) !! Elements(runroot)
      modifies this
      ensures Valid() && Here().role == old(Here().role) && Here().pc == Ended && found == old(found)
      ensures steps == old(steps) + Deletions(image, runroot, w)
    {
      PurgeOne(image);
      PurgeOne(runroot);
      GiveUp();
      AppendThree(old(steps), Deletion(image, w), Deletion(runroot, w), [Exit]);
    }

    /** Both phases: the renames, under whatever lock there is; then the unlock; and only then
        the deletion of exactly what the renames found. */
    method ReclaimStore() returns (image: Option<nat>, runroot: Option<nat>)
      requires Valid() && Enabled(Here().role, Here().pc, Rename(Image))
      modifies this
      ensures Valid() && Here().role == old(Here().role) && Here().pc == Ended
      ensures steps == old(steps) + Phases(w, image, runroot)
      ensures found == Elements(image) + Elements(runroot)
    {
      image, runroot := RenameBoth();
      LetGo();
      DeleteBoth(image, runroot);
      AppendThree(old(steps), Renames(w), [Unlock], Deletions(image, runroot, w));
    }

    /** The whole lifecycle of one store.  Whatever the others do meanwhile, nothing is held at
        the end; the store is renamed exactly when it is idle, readable, the user's own and no
        dry run, deleted exactly after that, and no run on its target is live at either
        rename (for an unattributed store, if its scan was not blinded to the target).  A dry
        run's answer is told by its own steps: no file, a lock met, or a lock let go, and then
        the record decides. */
    method ProcessCandidate() returns (ok: bool, ghost live: Liveness, ghost asked: seq<Act>)
      requires Valid() && Here().pc == Trying(0) && Harmless(steps)
      requires var t := Here().role.target;
               Here().role == if !w.attributed then Scan(t) else if w.dryRun then Probe(t) else Reclaim(t)
      modifies this
      ensures Valid() && LockIno(Here()).None?
      ensures ok <==>
                && live != Unknown
                && (live == NotLive ==>
                      !w.openStoreFails && !w.scanStoreFails && (w.foreign || w.dryRun || !w.renameFails))
      ensures Rename(Image) in steps <==>
                && live == NotLive && !w.openStoreFails && !w.scanStoreFails && !w.foreign
                && !w.dryRun && !w.renameFails
      ensures Rename(Runroot) in steps <==> Rename(Image) in steps && !w.noTempDir && !w.runrootRenameFails
      ensures forall g :: Purge(g) in steps <==> Rename(Image) in steps && g in found && !w.purgeFails(g)
      ensures Rename(Image) in steps ==> Reclaimed(steps, w, found)
      ensures live == Unknown ==> CallFails(w) || SweptAway(run, pid)
      ensures live == IsLive ==> Contended(run, pid) || (w.attributed && w.provablyLive)
      ensures live == NotLive && w.attributed && !w.dryRun ==> !w.provablyLive
      ensures w.attributed && w.dryRun && !w.setupFails ==>
                && (steps == old(steps) + asked || steps == (old(steps) + asked) + [Exit])
                && (|| (asked == [Open] && live == NotLive)
                    || (asked == [Open, Flock] && live == IsLive)
                    || (asked == [Open, Flock, Unlock] && live == if w.provablyLive then IsLive else NotLive)
                    || (asked == [Exit] && live == Unknown && w.openFails(0))
                    || (asked == [Open, Exit] && live == Unknown && w.flockFails(0)))
      ensures RenamesSafe(run, pid)
    {
      ok, live, asked := AskAndAct();
      RenamesAreSafe(run, pid);
      if live != NotLive {
        HarmlessHolds(steps);
      }
    }

    method AskAndAct() returns (ok: bool, ghost live: Liveness, ghost asked: seq<Act>)
      requires Valid() && Here().pc == Trying(0) && Harmless(steps) && Here().role == RoleFor(w, Here().role.target)
      modifies this
      ensures Valid() && Resting(Here().pc)
      ensures if live == NotLive then Acted(steps, w, found) else Harmless(steps)
      ensures ok <==> if live == NotLive then ActsWell(w) else live == IsLive
      ensures live == Unknown ==> CallFails(w) || SweptAway(run, pid)
      ensures live == IsLive ==> Contended(run, pid) || (w.attributed && w.provablyLive)
      ensures live == NotLive && w.attributed && !w.dryRun ==> !w.provablyLive
      ensures w.attributed && w.dryRun && !w.setupFails ==> AskedThen(old(steps), steps, asked) && ProbeTold(w, live, asked)
    {
      var answer;
      answer, asked := AskLiveness();
      live := answer;
      ok := answer == IsLive;
      if answer == NotLive {
        ok := ActOnIdle();
      }
    }

    // What is left once the store is known to be idle.
    method ActOnIdle() returns (ok: bool)
      requires Valid() && Harmless(steps)
      requires IdleAt(w, Here())
      modifies this
      ensures Valid() && Here().pc == Ended && Acted(steps, w, found)
      ensures ok <==> ActsWell(w)
      ensures w.dryRun ==> steps == old(steps) + [Exit]
    {
      ok := !w.openStoreFails && !w.scanStoreFails;
      if w.openStoreFails || w.scanStoreFails || w.foreign || w.dryRun {
        LeaveStore();
      } else if w.renameFails {
        LeaveStore();
        ok := false;
      } else {
        IdleCanRename(w, Here());
        TakeStore();
      }
    }

    method LeaveStore()
      requires Valid() && Harmless(steps)
      requires w.openStoreFails || w.scanStoreFails || w.foreign || w.dryRun || w.renameFails
      modifies this
      ensures Valid() && Here().pc == Ended && Acted(steps, w, found) && steps == old(steps) + [Exit]
    {
      GiveUp();
      NothingDone(steps, w, found);
    }

    method TakeStore()
      requires Valid() && Harmless(steps) && Enabled(Here().role, Here().pc, Rename(Image))
      requires !w.openStoreFails && !w.scanStoreFails && !w.foreign && !w.dryRun && !w.renameFails
      modifies this
      ensures Valid() && Here().pc == Ended && Acted(steps, w, found)
    {
      ghost var before := steps;
      var image, runroot := ReclaimStore();
      PhasesDo(before, w, image, runroot);
    }
  }
}
