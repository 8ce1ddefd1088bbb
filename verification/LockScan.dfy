/**
 One scan of the lock directory, by a collector that cannot name its store's target, and one
 target: when the scan's "nothing is live" can be believed about it.

 It can exactly as long as no step blinds the scan: the scanner passing over the lock file of
 a run that holds it, or a run taking its lock where the scan will not look any more.
 */
module LockScan {
  import opened Options
  import opened TargetLock

  // From the directory listing to the last rename (or to giving up).
  predicate Scanning(p: Proc) {
    p.pc.Listed? || p.pc.ScanOpened? || p.pc.ScanLocked? || (p.pc.Moved? && p.pc.lock.None?)
  }

  // A run that holds the inode its target's name points at: live, or about to be.
  predicate Tethered(s: State, p: Proc) {
    p.role.Run? && LockIno(p).Some? && Linked(s, LockIno(p).value)
  }

  // What is left for a scan to probe still covers every tethered run.
  predicate Covers(p: Proc, r: Proc) {
    match p.pc
    case Listed(todo) => r.role.target in todo
    case ScanOpened(ino, todo) =>
      r.role.target in todo && (ino.target == r.role.target ==> LockIno(r) == Some(ino))
    case ScanLocked(_, todo) => r.role.target in todo
    case Moved(_, _) => false
    case _ => true
  }

  ghost predicate ScanCovers(s: State, c: Pid, t: Target) {
    c in s.procs && Scanning(s.procs[c]) ==>
      forall r :: r in s.procs && s.procs[r].role.target == t && Tethered(s, s.procs[r]) ==>
        Covers(s.procs[c], s.procs[r])
  }

  predicate TakesLock(s: State, pid: Pid, act: Act, t: Target) {
    && act.Flock? && pid in s.procs && s.procs[pid].role == Run(t)
    && NextPc(s, pid, s.procs[pid], act).Some? && NextPc(s, pid, s.procs[pid], act).value.Locked?
  }

  // ---- the steps that blind a scan -----------------------------------------------------

  // c passes over t's lock file while a run on t holds it.
  ghost predicate PassesOver(s: State, pid: Pid, act: Act, c: Pid, t: Target) {
    pid == c && act == SkipUnopenable(t) &&
    exists r :: r in s.procs && s.procs[r].role.target == t && Tethered(s, s.procs[r])
  }

  // A run on t takes the lock file that t's name points at, and nothing c has still to do
  // will meet it there.
  predicate SlipsBy(s: State, pid: Pid, act: Act, c: Pid, t: Target) {
    && TakesLock(s, pid, act, t) && c in s.procs && Scanning(s.procs[c])
    && var r := s.procs[pid].(pc := NextPc(s, pid, s.procs[pid], act).value);
       Tethered(s, r) && !Covers(s.procs[c], r)
  }

  ghost predicate Blinds(s: State, pid: Pid, act: Act, c: Pid, t: Target) {
    PassesOver(s, pid, act, c, t) || SlipsBy(s, pid, act, c, t)
  }

  // No step of the run blinds c's scan to t.
  ghost predicate Sighted(s: State, run: seq<Label>, c: Pid, t: Target)
    decreases |run|
  {
    run == [] ||
    var next := Step(s, run[0].pid, run[0].act);
    !Blinds(s, run[0].pid, run[0].act, c, t) && (next.Some? ==> Sighted(next.value, run[1..], c, t))
  }

  // Only an unopposed flock makes a run tethered.
  lemma TetherNeedsFlock(s: State, pid: Pid, act: Act, r: Pid)
    requires LockInv(s) && Code(act) && Step(s, pid, act).Some?
    requires var s' := Step(s, pid, act).value; r in s'.procs && Tethered(s', s'.procs[r])
    ensures r in s.procs && s.procs[r].role == Step(s, pid, act).value.procs[r].role
    ensures (r == pid && TakesLock(s, pid, act, s.procs[r].role.target)) ||
            (Tethered(s, s.procs[r]) && LockIno(s.procs[r]) == LockIno(Step(s, pid, act).value.procs[r]))
  {
    StepShape(s, pid, act);
    assert ProcOk(s, s.procs[r]);
    var s' := Step(s, pid, act).value;
    if pid in s.procs {
      NextPcOk(s, pid, s.procs[pid], act);
      assert ProcOk(s, s.procs[pid]);
    }
  }

  // The scanner's own step: a name leaves its list only when no run is tethered to it.
  lemma ScannerKeepsCover(s: State, c: Pid, act: Act, r: Pid)
    requires LockInv(s) && Code(act) && c in s.procs && r in s.procs && c != r && Tethered(s, s.procs[r])
    requires act != SkipUnopenable(s.procs[r].role.target)
    requires Scanning(s.procs[c]) ==> Covers(s.procs[c], s.procs[r])
    requires NextPc(s, c, s.procs[c], act).Some?
    requires Scanning(s.procs[c].(pc := NextPc(s, c, s.procs[c], act).value))
    ensures var p := s.procs[c]; Covers(p.(pc := NextPc(s, c, p, act).value), s.procs[r])
  {
    var p := s.procs[c];
    assert ProcOk(s, p) && ProcOk(s, s.procs[r]);
    if p.pc.ScanOpened? && LockIno(s.procs[r]) == Some(p.pc.ino) {
      assert Clash(p, s.procs[r], p.pc.ino);
    }
  }

  lemma StepKeepsCover(s: State, pid: Pid, act: Act, c: Pid, t: Target, r: Pid)
    requires LockInv(s) && ScanCovers(s, c, t) && Code(act) && !Blinds(s, pid, act, c, t)
    requires Step(s, pid, act).Some?
    requires var s' := Step(s, pid, act).value;
             && c in s'.procs && r in s'.procs && Scanning(s'.procs[c])
             && s'.procs[r].role.target == t && Tethered(s', s'.procs[r])
    ensures var s' := Step(s, pid, act).value; Covers(s'.procs[c], s'.procs[r])
  {
    StepTouchesOne(s, pid, act);
    TetherNeedsFlock(s, pid, act, r);
    if c == pid && !act.Spawn? {
      ScannerIsNoRun(s, pid, act, r);
      ScannerKeepsCover(s, c, act, r);
    }
  }

  lemma ScannerIsNoRun(s: State, c: Pid, act: Act, r: Pid)
    requires LockInv(s) && Code(act) && Step(s, c, act).Some? && c in s.procs && !act.Spawn?
    requires var s' := Step(s, c, act).value;
             Scanning(s'.procs[c]) && r in s'.procs && s'.procs[r].role.Run?
    ensures c != r
  {
    StepperOk(s, c, act);
  }

  lemma StepKeepsScan(s: State, pid: Pid, act: Act, c: Pid, t: Target)
    requires LockInv(s) && ScanCovers(s, c, t) && Code(act) && !Blinds(s, pid, act, c, t)
    requires Step(s, pid, act).Some?
    ensures ScanCovers(Step(s, pid, act).value, c, t)
  {
    var s' := Step(s, pid, act).value;
    if c in s'.procs && Scanning(s'.procs[c]) {
      forall r | r in s'.procs && s'.procs[r].role.target == t && Tethered(s', s'.procs[r])
        ensures Covers(s'.procs[c], s'.procs[r])
      {
        StepKeepsCover(s, pid, act, c, t, r);
      }
    }
  }

  lemma {:induction false} ExecKeepsScan(s: State, run: seq<Label>, c: Pid, t: Target)
    requires LockInv(s) && ScanCovers(s, c, t) && CodeRun(run) && Sighted(s, run, c, t) && Exec(s, run).Some?
    ensures ScanCovers(Exec(s, run).value, c, t)
    decreases |run|
  {
    if run != [] {
      assert run[0] in run;
      StepKeepsLockInv(s, run[0].pid, run[0].act);
      StepKeepsScan(s, run[0].pid, run[0].act, c, t);
      ExecKeepsScan(Step(s, run[0].pid, run[0].act).value, run[1..], c, t);
    }
  }

  // ---- and exactly those --------------------------------------------------------------------

  lemma BlindedLosesCover(s: State, pid: Pid, act: Act, c: Pid, t: Target)
    requires LockInv(s) && Code(act) && Step(s, pid, act).Some? && Blinds(s, pid, act, c, t)
    ensures !ScanCovers(Step(s, pid, act).value, c, t)
  {
    var s' := Step(s, pid, act).value;
    if PassesOver(s, pid, act, c, t) {
      var r :| r in s.procs && s.procs[r].role.target == t && Tethered(s, s.procs[r]);
      assert ProcOk(s, s.procs[c]);
      assert s'.procs[r] == s.procs[r] && Tethered(s', s'.procs[r]) && !Covers(s'.procs[c], s'.procs[r]);
    } else {
      assert ProcOk(s, s.procs[c]);
      assert s'.procs[c] == s.procs[c] && Tethered(s', s'.procs[pid]);
    }
  }

  // A scanner can rename while a run on t is live.
  ghost predicate Misled(s: State, c: Pid, t: Target) {
    && c in s.procs && s.procs[c].role.Scan?
    && (exists part :: Step(s, c, Rename(part)).Some?)
    && exists r :: r in s.procs && s.procs[r].role.target == t && Live(s.procs[r])
  }

  // The bystander's view: c passes over t's lock file, or a run on t takes its lock while
  // c's scan is open.
  predicate Disturbs(s: State, pid: Pid, act: Act, c: Pid, t: Target) {
    || (pid == c && act == SkipUnopenable(t))
    || (c in s.procs && Scanning(s.procs[c]) && TakesLock(s, pid, act, t))
  }

  ghost predicate Undisturbed(s: State, run: seq<Label>, c: Pid, t: Target)
    decreases |run|
  {
    run == [] ||
    var next := Step(s, run[0].pid, run[0].act);
    !Disturbs(s, run[0].pid, run[0].act, c, t) && (next.Some? ==> Undisturbed(next.value, run[1..], c, t))
  }

  /** A scan that is not disturbed is not blinded. */
  lemma {:induction false} UndisturbedIsSighted(s: State, run: seq<Label>, c: Pid, t: Target)
    requires Undisturbed(s, run, c, t)
    ensures Sighted(s, run, c, t)
    decreases |run|
  {
    if run != [] && Step(s, run[0].pid, run[0].act).Some? {
      UndisturbedIsSighted(Step(s, run[0].pid, run[0].act).value, run[1..], c, t);
    }
  }

  ghost predicate LeadsToMisled(s: State, more: seq<Label>, c: Pid, t: Target) {
    CodeRun(more) && Undisturbed(s, more, c, t) && Exec(s, more).Some? && Misled(Exec(s, more).value, c, t)
  }

  // Without any further disturbance the scanner can come to rename while a run on t is live.
  ghost predicate Doomed(s: State, c: Pid, t: Target) { exists more :: LeadsToMisled(s, more, c, t) }

  lemma MisledIsDoomed(s: State, c: Pid, t: Target)
    requires Misled(s, c, t)
    ensures Doomed(s, c, t)
  {
    assert LeadsToMisled(s, [], c, t);
  }

  lemma DoomedBefore(s: State, pid: Pid, act: Act, c: Pid, t: Target)
    requires Code(act) && Step(s, pid, act).Some? && !Disturbs(s, pid, act, c, t)
    requires Doomed(Step(s, pid, act).value, c, t)
    ensures Doomed(s, c, t)
  {
    var more :| LeadsToMisled(Step(s, pid, act).value, more, c, t);
    var longer := [Label(pid, act)] + more;
    assert longer[1..] == more;
    assert LeadsToMisled(s, longer, c, t);
  }

  // A live run on t that c's scan does not cover.
  predicate Unseen(s: State, c: Pid, t: Target, r: Pid) {
    && c in s.procs && s.procs[c].role.Scan? && r in s.procs && r != c
    && Live(s.procs[r]) && s.procs[r].role.target == t
    && Scanning(s.procs[c]) && !Covers(s.procs[c], s.procs[r])
  }

  // The rest of the list can be passed over: t is not on it.
  lemma {:induction false} ListedIsDoomed(s: State, c: Pid, t: Target, r: Pid)
    requires Unseen(s, c, t, r) && s.procs[c].pc.Listed?
    ensures Doomed(s, c, t)
    decreases |s.procs[c].pc.todo|
  {
    var todo := s.procs[c].pc.todo;
    if todo == {} {
      assert Step(s, c, Rename(Image)).Some?;
      MisledIsDoomed(s, c, t);
    } else {
      var u :| u in todo;
      ListedIsDoomed(Step(s, c, SkipUnopenable(u)).value, c, t, r);
      DoomedBefore(s, c, SkipUnopenable(u), c, t);
    }
  }

  lemma LockedIsDoomed(s: State, c: Pid, t: Target, r: Pid)
    requires Unseen(s, c, t, r) && s.procs[c].pc.ScanLocked?
    ensures Doomed(s, c, t)
  {
    ListedIsDoomed(Step(s, c, Unlock).value, c, t, r);
    DoomedBefore(s, c, Unlock, c, t);
  }

  function HoldersOf(s: State, ino: Inode): set<Pid> { set q | q in s.procs && LockIno(s.procs[q]) == Some(ino) }

  // Whoever is in the way of the scanner's flock may end; the run is not.
  lemma {:induction false} OpenedIsDoomed(s: State, c: Pid, t: Target, r: Pid)
    requires Unseen(s, c, t, r) && s.procs[c].pc.ScanOpened? && PcFits(s.procs[c])
    requires var ino := s.procs[c].pc.ino; LockIno(s.procs[r]) == Some(ino) ==> ino.target == t
    ensures Doomed(s, c, t)
    decreases |HoldersOf(s, s.procs[c].pc.ino)|
  {
    var ino, todo := s.procs[c].pc.ino, s.procs[c].pc.todo;
    if Conflict(s, c, ino) {
      var q :| q in s.procs && q != c && Clash(s.procs[c], s.procs[q], ino);
      var s' := Step(s, q, Exit).value;
      assert HoldersOf(s', ino) == HoldersOf(s, ino) - {q} && q in HoldersOf(s, ino);
      OpenedIsDoomed(s', c, t, r);
      DoomedBefore(s, q, Exit, c, t);
    } else {
      LockedIsDoomed(Step(s, c, Flock).value, c, t, r);
      DoomedBefore(s, c, Flock, c, t);
    }
  }

  lemma UnseenIsDoomed(s: State, c: Pid, t: Target, r: Pid)
    requires LockInv(s) && Unseen(s, c, t, r)
    ensures Doomed(s, c, t)
  {
    assert ProcOk(s, s.procs[c]) && ProcOk(s, s.procs[r]);
    match s.procs[c].pc
    case Listed(_) => ListedIsDoomed(s, c, t, r);
    case ScanOpened(_, _) => OpenedIsDoomed(s, c, t, r);
    case ScanLocked(_, _) => LockedIsDoomed(s, c, t, r);
    case Moved(_, _) =>
      assert Step(s, c, Rename(Runroot)).Some?;
      MisledIsDoomed(s, c, t);
  }

  // A run that holds its lock has only the link check before it.
  lemma UncoveredIsDoomed(s: State, c: Pid, t: Target)
    requires LockInv(s) && !ScanCovers(s, c, t)
    ensures Doomed(s, c, t)
  {
    var r :| r in s.procs && s.procs[r].role.target == t && Tethered(s, s.procs[r]) && !Covers(s.procs[c], s.procs[r]);
    assert ProcOk(s, s.procs[c]) && ProcOk(s, s.procs[r]);
    if s.procs[r].pc.Held? {
      UnseenIsDoomed(s, c, t, r);
    } else {
      var s' := Step(s, r, CheckLinked).value;
      StepKeepsLockInv(s, r, CheckLinked);
      UnseenIsDoomed(s', c, t, r);
      DoomedBefore(s, r, CheckLinked, c, t);
    }
  }

  // A scan that is misled about t does not cover some run on t.
  lemma MisledIsUncovered(s: State, c: Pid, t: Target)
    requires LockInv(s) && Misled(s, c, t)
    ensures !ScanCovers(s, c, t)
  {
    var r :| r in s.procs && s.procs[r].role.target == t && Live(s.procs[r]);
    assert ProcOk(s, s.procs[c]) && ProcOk(s, s.procs[r]);
    assert Tethered(s, s.procs[r]) && !Covers(s.procs[c], s.procs[r]);
  }

  lemma DoomedIsUncovered(s: State, c: Pid, t: Target)
    requires LockInv(s) && Doomed(s, c, t)
    ensures !ScanCovers(s, c, t)
  {
    var more :| LeadsToMisled(s, more, c, t);
    ExecKeepsLockInv(s, more);
    MisledIsUncovered(Exec(s, more).value, c, t);
    UndisturbedIsSighted(s, more, c, t);
    if ScanCovers(s, c, t) {
      ExecKeepsScan(s, more, c, t);
    }
  }

  /** One step of any process: it leaves the scan right about t exactly when it does not blind
      it, and exactly when the scanner cannot then come, undisturbed, to rename while a run on
      t is live. */
  lemma BlindsIff(s: State, pid: Pid, act: Act, c: Pid, t: Target)
    requires LockInv(s) && ScanCovers(s, c, t) && Code(act) && Step(s, pid, act).Some?
    ensures ScanCovers(Step(s, pid, act).value, c, t) <==> !Blinds(s, pid, act, c, t)
    ensures Doomed(Step(s, pid, act).value, c, t) <==> Blinds(s, pid, act, c, t)
  {
    var s' := Step(s, pid, act).value;
    StepKeepsLockInv(s, pid, act);
    if Blinds(s, pid, act, c, t) {
      BlindedLosesCover(s, pid, act, c, t);
      UncoveredIsDoomed(s', c, t);
    } else {
      StepKeepsScan(s, pid, act, c, t);
    }
    if Doomed(s', c, t) {
      DoomedIsUncovered(s', c, t);
    }
  }

  // At no point of the run is the scan doomed about t.
  ghost predicate NeverDoomed(s: State, run: seq<Label>, c: Pid, t: Target)
    decreases |run|
  {
    && !Doomed(s, c, t)
    && (run != [] ==>
          var next := Step(s, run[0].pid, run[0].act);
          next.Some? ==> NeverDoomed(next.value, run[1..], c, t))
  }

  lemma {:induction false} SightedIff(s: State, run: seq<Label>, c: Pid, t: Target)
    requires LockInv(s) && ScanCovers(s, c, t) && CodeRun(run) && Exec(s, run).Some?
    ensures Sighted(s, run, c, t) <==> NeverDoomed(s, run, c, t)
    decreases |run|
  {
    if Doomed(s, c, t) {
      DoomedIsUncovered(s, c, t);
    }
    if run != [] {
      assert run[0] in run;
      var next := Step(s, run[0].pid, run[0].act).value;
      BlindsIff(s, run[0].pid, run[0].act, c, t);
      StepKeepsLockInv(s, run[0].pid, run[0].act);
      if !Blinds(s, run[0].pid, run[0].act, c, t) {
        SightedIff(next, run[1..], c, t);
      }
    }
  }

  /** THE SCAN, EXACTLY.  In an execution of the code c's scan is at no point doomed to
      mislead it about t if and only if no step blinds the scan to t; and then, whenever c can
      rename, no run on t is live. */
  lemma ScanIff(run: seq<Label>, c: Pid, t: Target)
    requires CodeRun(run) && Exec(EMPTY, run).Some?
    ensures Sighted(EMPTY, run, c, t) <==> NeverDoomed(EMPTY, run, c, t)
    ensures Sighted(EMPTY, run, c, t) ==> !Misled(Exec(EMPTY, run).value, c, t)
  {
    SightedIff(EMPTY, run, c, t);
    if Sighted(EMPTY, run, c, t) {
      ExecKeepsLockInv(EMPTY, run);
      ExecKeepsScan(EMPTY, run, c, t);
      if Misled(Exec(EMPTY, run).value, c, t) {
        MisledIsUncovered(Exec(EMPTY, run).value, c, t);
      }
    }
  }

  /** A scan that has probed every listed name and answered "nothing is live" is right, and
      stays right until its last rename, about every run on a target it was not blinded to;
      what other scans met does not matter. */
  lemma ClearScanMeansNoLiveRun(run: seq<Label>, c: Pid, r: Pid)
    requires CodeRun(run) && Exec(EMPTY, run).Some?
    requires var s := Exec(EMPTY, run).value;
             && c in s.procs && r in s.procs
             && (s.procs[c].pc == Listed({}) || (s.procs[c].pc.Moved? && s.procs[c].role.Scan?))
             && Sighted(EMPTY, run, c, s.procs[r].role.target)
    ensures !Live(Exec(EMPTY, run).value.procs[r])
  {
    ExecKeepsLockInv(EMPTY, run);
    var s := Exec(EMPTY, run).value;
    ExecKeepsScan(EMPTY, run, c, s.procs[r].role.target);
    assert ProcOk(s, s.procs[r]) && ProcOk(s, s.procs[c]);
  }
}
