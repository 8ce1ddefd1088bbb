/**
 Executions in which a live run loses its store, each by one step the lock protocol does
 not take, or by a scan whose hypotheses do not hold.
 */
module Robberies {
  import opened Options
  import opened TargetLock

  // A live run whose image store is gone from under it.
  ghost predicate Robbed(s: State) {
    exists r :: r in s.procs && Live(s.procs[r]) && Image in s.procs[r].gens && Slot(s.procs[r].role.target, Image) !in s.store
  }

  // Every step is the program's and no lock file is passed over, except by the step named.
  predicate Only(run: seq<Label>, extra: Act) {
    forall l :: l in run ==> l.act == extra || (Code(l.act) && !l.act.SkipUnopenable?)
  }

  ghost predicate Reached(run: seq<Label>, extra: Act, s: State) { Exec(EMPTY, run) == Some(s) && Only(run, extra) }

  // A step of a process that is already there, with the place it goes to spelled out.
  lemma Do(run: seq<Label>, extra: Act, s: State, pid: Pid, act: Act, pc: Pc) returns (run': seq<Label>, s': State)
    requires Reached(run, extra, s) && pid in s.procs && !act.Spawn?
    requires act == extra || (Code(act) && !act.SkipUnopenable?)
    requires NextPc(s, pid, s.procs[pid], act) == Some(pc)
    ensures run' == run + [Label(pid, act)] && Reached(run', extra, s')
    ensures var p := s.procs[pid];
            && s'.procs == s.procs[pid := Proc(p.role, pc, NextGens(s, p, act))]
            && s'.names == NextNames(s, p, act) && s'.nextSerial == s.nextSerial + 1
            && s'.store == NextStore(s, p, act)
  {
    ExecThen(EMPTY, run, Label(pid, act));
    run', s' := run + [Label(pid, act)], Step(s, pid, act).value;
  }

  // A step that changes nothing but the process's place.
  lemma Move(run: seq<Label>, extra: Act, s: State, pid: Pid, act: Act, pc: Pc) returns (run': seq<Label>, s': State)
    requires Reached(run, extra, s) && pid in s.procs && !act.Spawn?
    requires act == extra || (Code(act) && !act.SkipUnopenable?)
    requires !act.Open? && !act.Unlink? && !act.UseStore? && Renamed(s.procs[pid], act).None?
    requires NextPc(s, pid, s.procs[pid], act) == Some(pc)
    ensures run' == run + [Label(pid, act)] && Reached(run', extra, s')
    ensures s'.procs == s.procs[pid := s.procs[pid].(pc := pc)]
    ensures s'.names == s.names && s'.store == s.store && s'.nextSerial == s.nextSerial + 1
  {
    run', s' := Do(run, extra, s, pid, act, pc);
  }

  lemma New(run: seq<Label>, extra: Act, s: State, pid: Pid, role: Role) returns (run': seq<Label>, s': State)
    requires Reached(run, extra, s) && pid !in s.procs
    ensures run' == run + [Label(pid, Spawn(role))] && Reached(run', extra, s')
    ensures s' == s.(procs := s.procs[pid := Proc(role, Trying(0), map[])])
  {
    ExecThen(EMPTY, run, Label(pid, Spawn(role)));
    run', s' := run + [Label(pid, Spawn(role))], Step(s, pid, Spawn(role)).value;
  }

  lemma OpenNew(run: seq<Label>, extra: Act, s: State, pid: Pid, role: Role) returns (run': seq<Label>, s': State)
    requires Reached(run, extra, s) && pid !in s.procs && role.target !in s.names
    requires role.Run? || role.Reclaim?
    ensures Reached(run', extra, s')
    ensures var ino := Inode(role.target, s.nextSerial);
            && s'.procs == s.procs[pid := Proc(role, Opened(ino, 0), map[])]
            && s'.names == s.names[role.target := ino] && s'.store == s.store
            && s'.nextSerial == s.nextSerial + 1
  {
    run', s' := New(run, extra, s, pid, role);
    run', s' := Do(run', extra, s', pid, Open, Opened(Inode(role.target, s.nextSerial), 0));
  }

  // Open, flock, link check, by a process alone on a target whose lock file is gone.
  lemma TakeLock(run: seq<Label>, extra: Act, s: State, pid: Pid, role: Role)
    returns (run': seq<Label>, s': State, ino: Inode)
    requires Reached(run, extra, s) && pid !in s.procs && role.target !in s.names
    requires role.Run? || role.Reclaim?
    requires forall q :: q in s.procs ==> LockIno(s.procs[q]) != Some(Inode(role.target, s.nextSerial))
    ensures Reached(run', extra, s')
    ensures s'.procs == s.procs[pid := Proc(role, Held(ino), map[])]
    ensures s'.names == s.names[role.target := ino] && s'.store == s.store
  {
    ino := Inode(role.target, s.nextSerial);
    run', s' := OpenNew(run, extra, s, pid, role);
    run', s' := Move(run', extra, s', pid, Flock, Locked(ino, 0));
    run', s' := Move(run', extra, s', pid, CheckLinked, Held(ino));
  }

  // A run that goes live and opens its store.
  lemma Start(run: seq<Label>, extra: Act, s: State, pid: Pid, t: Target) returns (run': seq<Label>, s': State)
    requires Reached(run, extra, s) && pid !in s.procs && t !in s.names
    requires forall q :: q in s.procs ==> LockIno(s.procs[q]) != Some(Inode(t, s.nextSerial))
    ensures Reached(run', extra, s')
    ensures pid in s'.procs && Live(s'.procs[pid]) && Image in s'.procs[pid].gens
    ensures s'.procs == s.procs[pid := s'.procs[pid]] && s'.procs[pid].role == Run(t)
    ensures s'.names.Keys == s.names.Keys + {t}
  {
    var ino;
    run', s', ino := TakeLock(run, extra, s, pid, Run(t));
    run', s' := Do(run', extra, s', pid, UseStore(Image), Held(ino));
  }

  // Renaming the image store of the target whose live run is r.
  lemma Rob(run: seq<Label>, extra: Act, s: State, pid: Pid, act: Act, pc: Pc, r: Pid) returns (run': seq<Label>, s': State)
    requires Reached(run, extra, s) && pid in s.procs && r in s.procs && r != pid
    requires act == extra || Code(act)
    requires Renamed(s.procs[pid], act) == Some(Slot(s.procs[pid].role.target, Image))
    requires NextPc(s, pid, s.procs[pid], act) == Some(pc)
    requires Live(s.procs[r]) && Image in s.procs[r].gens && s.procs[r].role.target == s.procs[pid].role.target
    ensures run' == run + [Label(pid, act)] && Reached(run', extra, s') && Robbed(s')
  {
    run', s' := Do(run, extra, s, pid, act, pc);
    assert Live(s'.procs[r]);
  }

  /** Had the collector renamed on the strength of the read-only probe, a run that starts
      right after the probe found no lock file would lose its store. */
  lemma ProbeThenRenameRobs() returns (run: seq<Label>, s: State)
    ensures Reached(run, RenameAfterProbe, s) && Robbed(s)
  {
    run, s := New([], RenameAfterProbe, EMPTY, 0, Probe("t"));
    run, s := Do(run, RenameAfterProbe, s, 0, Open, SaidIdle);
    run, s := Start(run, RenameAfterProbe, s, 1, "t");
    run, s := Rob(run, RenameAfterProbe, s, 0, RenameAfterProbe, Released(Gone(s, "t", Image)), 1);
  }

  // A run and a sweeper have opened the lock file.
  lemma TwoOpeners() returns (run: seq<Label>, s: State)
    ensures Reached(run, SkipLinkCheck, s)
    ensures var ino := Inode("t", 0);
            && s.names == map["t" := ino] && s.store == map[] && s.nextSerial > 0
            && s.procs == map[1 := Proc(Run("t"), Opened(ino, 0), map[]), 2 := Proc(Sweep("t"), Opened(ino, 0), map[])]
  {
    run, s := OpenNew([], SkipLinkCheck, EMPTY, 1, Run("t"));
    run, s := New(run, SkipLinkCheck, s, 2, Sweep("t"));
    run, s := Do(run, SkipLinkCheck, s, 2, Open, Opened(Inode("t", 0), 0));
  }

  // The sweeper locks it first.
  lemma SweepBesideAnOpener() returns (run: seq<Label>, s: State)
    ensures Reached(run, SkipLinkCheck, s)
    ensures var ino := Inode("t", 0);
            && s.names == map["t" := ino] && s.store == map[] && s.nextSerial > 0
            && s.procs == map[1 := Proc(Run("t"), Opened(ino, 0), map[]), 2 := Proc(Sweep("t"), Locked(ino, 0), map[])]
  {
    run, s := TwoOpeners();
    run, s := Move(run, SkipLinkCheck, s, 2, Flock, Locked(Inode("t", 0), 0));
  }

  // It passes both of its checks.
  lemma SweepReady() returns (run: seq<Label>, s: State)
    ensures Reached(run, SkipLinkCheck, s)
    ensures var ino := Inode("t", 0);
            && s.names == map["t" := ino] && s.store == map[] && s.nextSerial > 0
            && s.procs == map[1 := Proc(Run("t"), Opened(ino, 0), map[]), 2 := Proc(Sweep("t"), SweepNamed(ino), map[])]
  {
    var ino := Inode("t", 0);
    run, s := SweepBesideAnOpener();
    run, s := Move(run, SkipLinkCheck, s, 2, CheckLinked, SweepLinked(ino));
    run, s := Move(run, SkipLinkCheck, s, 2, CheckName, SweepNamed(ino));
  }

  // The sweeper then unlinks the file, and the run's flock succeeds on the orphan.
  lemma FlockOnAnOrphan() returns (run: seq<Label>, s: State)
    ensures Reached(run, SkipLinkCheck, s)
    ensures var ino := Inode("t", 0);
            && s.names == map[] && s.store == map[] && s.nextSerial > 0
            && s.procs == map[1 := Proc(Run("t"), Locked(ino, 0), map[]), 2 := Proc(Sweep("t"), Ended, map[])]
  {
    var ino := Inode("t", 0);
    run, s := SweepReady();
    assert s.names - {"t"} == map[];
    run, s := Do(run, SkipLinkCheck, s, 2, Unlink, Ended);
    assert !Conflict(s, 1, ino) by {
      assert forall q :: q in s.procs && q != 1 ==> q == 2;
    }
    run, s := Move(run, SkipLinkCheck, s, 1, Flock, Locked(ino, 0));
  }

  // Without the link check the run is live on it.
  lemma LiveOnAnOrphan() returns (run: seq<Label>, s: State)
    ensures Reached(run, SkipLinkCheck, s)
    ensures s.names == map[] && s.nextSerial > 0 && s.procs.Keys == {1, 2}
    ensures Live(s.procs[1]) && s.procs[1].role == Run("t") && Image in s.procs[1].gens
    ensures s.procs[1].pc.ino == Inode("t", 0) && s.procs[2].pc.Ended?
  {
    run, s := FlockOnAnOrphan();
    run, s := Move(run, SkipLinkCheck, s, 1, SkipLinkCheck, Held(Inode("t", 0)));
    run, s := Do(run, SkipLinkCheck, s, 1, UseStore(Image), Held(Inode("t", 0)));
  }

  /** The link check after flock is what keeps two holders off two inodes: a run that
      skipped it could hold a lock file a sweep had just unlinked, be invisible to the
      collector that opens the name, and lose its store. */
  lemma SkippingTheLinkCheckRobs() returns (run: seq<Label>, s: State)
    ensures Reached(run, SkipLinkCheck, s) && Robbed(s)
  {
    var ino;
    run, s := LiveOnAnOrphan();
    run, s, ino := TakeLock(run, SkipLinkCheck, s, 3, Reclaim("t"));
    run, s := Rob(run, SkipLinkCheck, s, 3, Rename(Image), Moved(Some(ino), Gone(s, "t", Image)), 1);
  }

  /** The scan for unattributed stores cannot keep its answer true: a run that takes its
      lock between the listing and the rename loses its store, though every step is one the
      program takes and no lock file is passed over. */
  lemma ScanMissesALateRun() returns (run: seq<Label>, s: State)
    ensures Reached(run, Exit, s) && Robbed(s)
  {
    run, s := New([], Exit, EMPTY, 0, Scan("t"));
    assert s.names.Keys == {};
    run, s := Move(run, Exit, s, 0, List, Listed({}));
    run, s := Start(run, Exit, s, 1, "t");
    run, s := Rob(run, Exit, s, 0, Rename(Image), Moved(None, Gone(s, "t", Image)), 1);
  }

  // A live run before the scan starts.
  lemma RunBeforeScan() returns (run: seq<Label>, s: State)
    ensures Reached(run, SkipUnopenable("t"), s) && s.names.Keys == {"t"} && s.procs.Keys == {0, 1}
    ensures s.procs[0] == Proc(Scan("t"), Trying(0), map[])
    ensures Live(s.procs[1]) && s.procs[1].role == Run("t") && Image in s.procs[1].gens
  {
    run, s := New([], SkipUnopenable("t"), EMPTY, 0, Scan("t"));
    run, s := Start(run, SkipUnopenable("t"), s, 1, "t");
  }

  /** Nor may a lock file that cannot be opened be passed over, which the scan does: here no
      run takes a lock during the scan, and the live run's store is still taken. */
  lemma UnopenableLockHidesARun() returns (before: seq<Label>, scan: seq<Label>, s: State)
    ensures CodeRun(before + scan) && Exec(EMPTY, before + scan) == Some(s) && Robbed(s)
    ensures scan == [Label(0, List), Label(0, SkipUnopenable("t")), Label(0, Rename(Image))]
  {
    before, s := RunBeforeScan();
    var run;
    run, s := Move(before, SkipUnopenable("t"), s, 0, List, Listed({"t"}));
    assert {"t"} - {"t"} == {};
    run, s := Move(run, SkipUnopenable("t"), s, 0, SkipUnopenable("t"), Listed({}));
    run, s := Rob(run, SkipUnopenable("t"), s, 0, Rename(Image), Moved(None, Gone(s, "t", Image)), 1);
    scan := [Label(0, List), Label(0, SkipUnopenable("t")), Label(0, Rename(Image))];
    assert before + scan == run;
  }
}
