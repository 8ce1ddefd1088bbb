/**
 What every execution of the lock protocol keeps of one collector's own steps: when it locks,
 releases, renames and deletes, and that its renames are safe.
 */
module Reclaimer {
  import opened Options
  import opened TargetLock
  import opened LockScan
  import opened StoreSafety

  // ---- one process's own steps ---------------------------------------------------

  function Own(run: seq<Label>, pid: Pid): seq<Act> {
    if run == [] then []
    else
      var n := |run| - 1;
      Own(run[..n], pid) + if run[n].pid == pid then [run[n].act] else []
  }

  lemma OwnThen(run: seq<Label>, pid: Pid, l: Label)
    ensures Own(run + [l], pid) == if l.pid == pid then Own(run, pid) + [l.act] else Own(run, pid)
  {
    assert (run + [l])[..|run|] == run;
  }

  lemma {:induction false} OwnUnchanged(run: seq<Label>, pid: Pid, more: seq<Label>)
    requires forall l :: l in more ==> l.pid != pid
    ensures Own(run + more, pid) == Own(run, pid)
    decreases |more|
  {
    if more == [] {
      assert run + more == run;
    } else {
      var n := |more| - 1;
      OwnUnchanged(run, pid, more[..n]);
      assert run + more == (run + more[..n]) + [more[n]];
      OwnThen(run + more[..n], pid, more[n]);
    }
  }

  // ---- what every execution keeps of a reclaimer ------------------------------------

  // The lock is held, and has passed the link check.
  predicate Holding(p: Proc) { p.pc.Held? || ((p.pc.Moved? || p.pc.Disconnected?) && p.pc.lock.Some?) }

  datatype Event = Flocked | Verified | Dropped

  predicate Happens(s: State, s': State, c: Pid, e: Event)
    requires c in s.procs && c in s'.procs
  {
    var p, p' := s.procs[c], s'.procs[c];
    match e
    case Flocked => LockIno(p).None? && LockIno(p').Some?
    case Verified => !Holding(p) && Holding(p')
    case Dropped => LockIno(p).Some? && LockIno(p').None?
  }

  function Count(s: State, run: seq<Label>, c: Pid, e: Event): nat
    requires c in s.procs && Exec(s, run).Some?
    decreases |run|
  {
    if run == [] then 0
    else
      var next := Step(s, run[0].pid, run[0].act).value;
      (if Happens(s, next, c, e) then 1 else 0) + Count(next, run[1..], c, e)
  }

  // How many flocks a reclaimer may still get.
  function Budget(p: Proc): int {
    match p.pc
    case Trying(a) => ATTEMPTS - a
    case Opened(_, a) => ATTEMPTS - a
    case Locked(_, a) => ATTEMPTS - a - 1
    case _ => 0
  }

  // An attempt past the last is never begun.
  predicate InTime(p: Proc) { Before(p) ==> p.pc.attempt < ATTEMPTS }

  predicate Before(p: Proc) { p.pc.Trying? || p.pc.Opened? || p.pc.Locked? }

  lemma ReclaimerStep(s: State, pid: Pid, act: Act, c: Pid)
    requires c in s.procs && s.procs[c].role.Reclaim? && PcFits(s.procs[c]) && InTime(s.procs[c])
    requires Code(act) && Step(s, pid, act).Some?
    ensures var s' := Step(s, pid, act).value;
            && c in s'.procs && s'.procs[c].role.Reclaim? && PcFits(s'.procs[c])
            && InTime(s'.procs[c])
            && Budget(s'.procs[c]) + (if Happens(s, s', c, Flocked) then 1 else 0) <= Budget(s.procs[c])
            && (Happens(s, s', c, Verified) ==> Before(s.procs[c]))
            && (Before(s'.procs[c]) ==> Before(s.procs[c]) && !Happens(s, s', c, Verified))
  {
  }

  /** In every execution a reclaimer gets at most four flocks and passes the link check on at
      most one of them, and has released its locks exactly as often as it got them, but for
      one it may still hold.  A process that stops holds none. */
  lemma {:induction false} LockReleasedOnce(s: State, run: seq<Label>, c: Pid)
    requires c in s.procs && s.procs[c].role.Reclaim? && PcFits(s.procs[c]) && InTime(s.procs[c])
    requires CodeRun(run) && Exec(s, run).Some?
    ensures c in Exec(s, run).value.procs
    ensures var p, p' := s.procs[c], Exec(s, run).value.procs[c];
            && Count(s, run, c, Flocked) <= Budget(p) <= ATTEMPTS
            && Count(s, run, c, Verified) <= (if Before(p) then 1 else 0)
            && Count(s, run, c, Flocked) + (if LockIno(p).Some? then 1 else 0)
                 == Count(s, run, c, Dropped) + (if LockIno(p').Some? then 1 else 0)
    decreases |run|
  {
    if run != [] {
      assert run[0] in run;
      ReclaimerStep(s, run[0].pid, run[0].act, c);
      LockReleasedOnce(Step(s, run[0].pid, run[0].act).value, run[1..], c);
    }
  }

  function Last(own: seq<Act>): Act
    requires own != []
  {
    own[|own| - 1]
  }

  function Front(own: seq<Act>): seq<Act>
    requires own != []
  {
    own[..|own| - 1]
  }

  // The steps that end in holding the lock, in having renamed the image store, the runroot
  // too, and in being past the unlock with only deletions since.
  predicate LedToHeld(own: seq<Act>) { own != [] && Last(own) == CheckLinked }

  predicate LedToMoved(own: seq<Act>) { own != [] && Last(own) == Rename(Image) && LedToHeld(Front(own)) }

  predicate LedToDisconnected(own: seq<Act>) {
    own != [] && Last(own) == Rename(Runroot) && LedToMoved(Front(own))
  }

  predicate LedToReleased(own: seq<Act>)
    decreases |own|
  {
    own != [] &&
    if Last(own).Purge? then LedToReleased(Front(own))
    else Last(own) == Unlock && (LedToMoved(Front(own)) || LedToDisconnected(Front(own)))
  }

  // What a reclaimer's own steps tell of the place it has come to.
  predicate Told(pc: Pc, own: seq<Act>) {
    match pc
    case Held(_) => LedToHeld(own)
    case Moved(_, _) => LedToMoved(own)
    case Disconnected(_, _) => LedToDisconnected(own)
    case Released(_) => LedToReleased(own)
    case _ => true
  }

  lemma ReclaimerMoves(s: State, pid: Pid, p: Proc, act: Act)
    requires p.role.Reclaim? && PcFits(p) && Code(act) && pid in s.procs && NextPc(s, pid, p, act).Some?
    ensures match NextPc(s, pid, p, act).value
            case Held(_) => act == CheckLinked
            case Moved(_, _) => act == Rename(Image) && p.pc.Held?
            case Disconnected(_, _) => act == Rename(Runroot) && p.pc.Moved?
            case Released(_) => (act == Unlock && (p.pc.Moved? || p.pc.Disconnected?)) || (act.Purge? && p.pc.Released?)
            case _ => true
  {
  }

  lemma ToldThen(own: seq<Act>, act: Act, s: State, pid: Pid, p: Proc)
    requires p.role.Reclaim? && PcFits(p) && Code(act) && pid in s.procs
    requires Told(p.pc, own) && NextPc(s, pid, p, act).Some?
    ensures Told(NextPc(s, pid, p, act).value, own + [act])
  {
    ReclaimerMoves(s, pid, p, act);
    assert Last(own + [act]) == act && Front(own + [act]) == own;
  }

  // One more step of the whole system.
  lemma OwnTellsThen(before: seq<Label>, s: State, l: Label, c: Pid)
    requires LockInv(s) && Code(l.act) && Step(s, l.pid, l.act).Some?
    requires c in s.procs && s.procs[c].role.Reclaim? && Told(s.procs[c].pc, Own(before, c))
    ensures var s' := Step(s, l.pid, l.act).value;
            c in s'.procs && Told(s'.procs[c].pc, Own(before + [l], c))
  {
    OwnThen(before, c, l);
    if l.pid == c {
      assert ProcOk(s, s.procs[c]);
      ToldThen(Own(before, c), l.act, s, c, s.procs[c]);
    } else {
      StepTouchesOne(s, l.pid, l.act);
    }
  }

  lemma {:induction false} OwnTells(run: seq<Label>, c: Pid)
    requires CodeRun(run) && Exec(EMPTY, run).Some?
    requires var s := Exec(EMPTY, run).value; c in s.procs && s.procs[c].role.Reclaim?
    ensures Told(Exec(EMPTY, run).value.procs[c].pc, Own(run, c))
    decreases |run|
  {
    if run != [] {
      var before, l, s := LastStep(run);
      if c in s.procs {
        StepTouchesOne(s, l.pid, l.act);
        OwnTells(before, c);
        OwnTellsThen(before, s, l, c);
      }
    }
  }

  // An execution taken apart at its last step.
  lemma LastStep(run: seq<Label>) returns (before: seq<Label>, l: Label, s: State)
    requires CodeRun(run) && Exec(EMPTY, run).Some? && run != []
    ensures run == before + [l] && CodeRun(before) && Code(l.act)
    ensures Exec(EMPTY, before) == Some(s) && LockInv(s) && Step(s, l.pid, l.act) == Exec(EMPTY, run)
  {
    var n := |run| - 1;
    before, l := run[..n], run[n];
    ExecPrefix(EMPTY, run, n);
    assert run == before + [l];
    ExecThen(EMPTY, before, l);
    assert forall k :: k in before ==> k in run;
    ExecKeepsLockInv(EMPTY, before);
    s := Exec(EMPTY, before).value;
  }

  /** Whatever a reclaimer deletes, it deletes after its unlock, with nothing but deletions in
      between; and just before that unlock it renamed the image store, and perhaps the
      runroot, aside under the lock it had checked. */
  lemma PurgeFollowsUnlock(run: seq<Label>, c: Pid, g: nat)
    requires CodeRun(run) && Exec(EMPTY, run).Some?
    requires var s := Exec(EMPTY, run).value;
             c in s.procs && s.procs[c].role.Reclaim? && Step(s, c, Purge(g)).Some?
    ensures LedToReleased(Own(run, c))
  {
    OwnTells(run, c);
  }

  // At each of its renames no run on the target is live; for a scanner, if the scan was
  // not blinded to that target.
  ghost predicate RenamesSafe(run: seq<Label>, c: Pid) {
    forall i :: 0 <= i < |run| && run[i].pid == c && run[i].act.Rename? ==> RenameSafe(run, c, i)
  }

  ghost predicate RenameSafe(run: seq<Label>, c: Pid, i: nat)
    requires i < |run|
  {
    && Exec(EMPTY, run[..i]).Some?
    && var s := Exec(EMPTY, run[..i]).value;
       && c in s.procs
       && (s.procs[c].role.Scan? ==> Sighted(EMPTY, run[..i], c, s.procs[c].role.target)) ==>
            forall r :: r in s.procs && s.procs[r].role.target == s.procs[c].role.target ==> !Live(s.procs[r])
  }

  lemma RenamesAreSafe(run: seq<Label>, c: Pid)
    requires CodeRun(run) && Exec(EMPTY, run).Some?
    ensures RenamesSafe(run, c)
  {
    forall i | 0 <= i < |run| && run[i].pid == c && run[i].act.Rename? ensures RenameSafe(run, c, i) {
      OneRenameIsSafe(run, c, i);
    }
  }

  lemma OneRenameIsSafe(run: seq<Label>, c: Pid, i: nat)
    requires CodeRun(run) && Exec(EMPTY, run).Some?
    requires i < |run| && run[i].pid == c && run[i].act.Rename?
    ensures RenameSafe(run, c, i)
  {
    ExecPrefix(EMPTY, run, i);
    ExecPrefix(EMPTY, run, i + 1);
    assert run[..i + 1] == run[..i] + [run[i]];
    ExecThen(EMPTY, run[..i], run[i]);
    assert CodeRun(run[..i]) by { assert forall l :: l in run[..i] ==> l in run; }
    var s := Exec(EMPTY, run[..i]).value;
    if s.procs[c].role.Scan? ==> Sighted(EMPTY, run[..i], c, s.procs[c].role.target) {
      forall r | r in s.procs && s.procs[r].role.target == s.procs[c].role.target ensures !Live(s.procs[r]) {
        RenameFindsNoLiveRun(run[..i], c, run[i].act.part, r);
      }
    }
  }
}
