/**
 What the lock protocol is for: a store is never renamed aside, and so never deleted,
 while the engine of a live run works in it.

 For a store whose target is known this needs no hypothesis, whatever else runs on the
 host.  A store nobody can attribute is guarded only by its collector's scan of the lock
 directory, and that is safe as long as no step blinds the scan to the store's target.
 */
module StoreSafety {
  import opened Options
  import opened TargetLock
  import opened LockScan

  // ---- every execution: what is aside is in no store -----------------------------------

  ghost predicate OutOfStore(s: State, gen: nat) { forall k :: k in s.store ==> s.store[k] != gen }

  function GoneOf(p: Proc): set<nat> {
    if p.pc.Moved? || p.pc.Disconnected? || p.pc.Released? then p.pc.gone else {}
  }

  ghost predicate StoreFresh(s: State) { forall k :: k in s.store ==> s.store[k] < s.nextGen }

  ghost predicate StoreDistinct(s: State) {
    forall j, k :: j in s.store && k in s.store && j != k ==> s.store[j] != s.store[k]
  }

  ghost predicate AsideOut(s: State) { forall g :: g in s.aside ==> g < s.nextGen && OutOfStore(s, g) }

  ghost predicate DisksOk(s: State) { StoreFresh(s) && StoreDistinct(s) && AsideOut(s) }

  ghost predicate GoneOk(s: State, p: Proc) { forall g :: g in GoneOf(p) ==> g < s.nextGen && OutOfStore(s, g) }

  ghost predicate DisksInv(s: State) { DisksOk(s) && forall q :: q in s.procs ==> GoneOk(s, s.procs[q]) }

  lemma StepKeepsStoreFresh(s: State, pid: Pid, act: Act)
    requires StoreFresh(s) && Step(s, pid, act).Some?
    ensures StoreFresh(Step(s, pid, act).value)
  {
  }

  lemma StepKeepsStoreDistinct(s: State, pid: Pid, act: Act)
    requires StoreFresh(s) && StoreDistinct(s) && Step(s, pid, act).Some?
    ensures StoreDistinct(Step(s, pid, act).value)
  {
  }

  // A generation that is out stays out: a new one is always fresh.
  lemma StepKeepsOut(s: State, pid: Pid, act: Act, g: nat)
    requires g < s.nextGen && OutOfStore(s, g) && Step(s, pid, act).Some?
    ensures OutOfStore(Step(s, pid, act).value, g) && g < Step(s, pid, act).value.nextGen
  {
  }

  lemma RenamedIsOut(s: State, pid: Pid, act: Act, k: Slot)
    requires StoreFresh(s) && StoreDistinct(s) && Step(s, pid, act).Some?
    requires pid in s.procs && !act.Spawn? && Renamed(s.procs[pid], act) == Some(k) && k in s.store
    ensures OutOfStore(Step(s, pid, act).value, s.store[k]) && s.store[k] < Step(s, pid, act).value.nextGen
  {
  }

  lemma StepKeepsAsideOut(s: State, pid: Pid, act: Act)
    requires DisksOk(s) && Step(s, pid, act).Some?
    ensures AsideOut(Step(s, pid, act).value)
  {
    var s' := Step(s, pid, act).value;
    forall g | g in s'.aside ensures g < s'.nextGen && OutOfStore(s', g) {
      if g in s.aside {
        StepKeepsOut(s, pid, act, g);
      } else {
        RenamedIsOut(s, pid, act, Renamed(s.procs[pid], act).value);
      }
    }
  }

  // Where a process's gone generations come from.
  lemma GoneIsOldOrRenamed(s: State, pid: Pid, act: Act, g: nat)
    requires pid in s.procs && !act.Spawn? && Step(s, pid, act).Some?
    requires g in GoneOf(Step(s, pid, act).value.procs[pid])
    ensures g in GoneOf(s.procs[pid]) ||
            (Renamed(s.procs[pid], act).Some? && Renamed(s.procs[pid], act).value in s.store
               && g == s.store[Renamed(s.procs[pid], act).value])
  {
  }

  lemma StepKeepsGone(s: State, pid: Pid, act: Act, q: Pid)
    requires DisksInv(s) && Step(s, pid, act).Some? && q in Step(s, pid, act).value.procs
    ensures GoneOk(Step(s, pid, act).value, Step(s, pid, act).value.procs[q])
  {
    var s' := Step(s, pid, act).value;
    forall g | g in GoneOf(s'.procs[q]) ensures g < s'.nextGen && OutOfStore(s', g) {
      if q == pid && !act.Spawn? && !act.RetryLeftover? {
        GoneIsOldOrRenamed(s, pid, act, g);
      }
      if q in s.procs && g in GoneOf(s.procs[q]) {
        assert GoneOk(s, s.procs[q]);
        StepKeepsOut(s, pid, act, g);
      } else {
        RenamedIsOut(s, pid, act, Renamed(s.procs[pid], act).value);
      }
    }
  }

  lemma StepKeepsDisksInv(s: State, pid: Pid, act: Act)
    requires DisksInv(s) && Step(s, pid, act).Some?
    ensures DisksInv(Step(s, pid, act).value)
  {
    StepKeepsStoreFresh(s, pid, act);
    StepKeepsStoreDistinct(s, pid, act);
    StepKeepsAsideOut(s, pid, act);
    forall q | q in Step(s, pid, act).value.procs
      ensures GoneOk(Step(s, pid, act).value, Step(s, pid, act).value.procs[q])
    {
      StepKeepsGone(s, pid, act, q);
    }
  }

  lemma {:induction false} ExecKeepsDisks(s: State, run: seq<Label>)
    requires DisksInv(s) && Exec(s, run).Some?
    ensures DisksInv(Exec(s, run).value)
    decreases |run|
  {
    if run != [] {
      StepKeepsDisksInv(s, run[0].pid, run[0].act);
      ExecKeepsDisks(Step(s, run[0].pid, run[0].act).value, run[1..]);
    }
  }

  ghost predicate Kept(s: State, g: nat) { (exists k :: k in s.store && s.store[k] == g) || g in s.aside }

  /** Nothing is lost on the way: a generation stays in the store or aside until someone
      deletes that very one. */
  lemma GenerationsStay(s: State, pid: Pid, act: Act, g: nat)
    requires Step(s, pid, act).Some? && Kept(s, g) && act != Purge(g) && act != RetryLeftover(g)
    ensures Kept(Step(s, pid, act).value, g)
  {
    var s' := Step(s, pid, act).value;
    if k :| k in s.store && s.store[k] == g {
      assert k in s'.store ==> s'.store[k] == g;
    }
  }

  // And then it is in neither.
  lemma DeletedIsGone(s: State, pid: Pid, act: Act, g: nat)
    requires DisksInv(s) && Step(s, pid, act).Some? && (act == Purge(g) || act == RetryLeftover(g))
    ensures !Kept(Step(s, pid, act).value, g)
  {
    if act == Purge(g) {
      assert GoneOk(s, s.procs[pid]) && g in GoneOf(s.procs[pid]);
    } else {
      assert g in s.aside && OutOfStore(s, g);
    }
  }

  /** A rename takes the directory from its key to aside, and the process that renamed it
      knows which it was. */
  lemma RenameMovesAside(s: State, pid: Pid, part: Part)
    requires pid in s.procs && Step(s, pid, Rename(part)).Some?
    ensures var s', slot := Step(s, pid, Rename(part)).value, Slot(s.procs[pid].role.target, part);
            && slot !in s'.store && (forall k :: k in s.store && k != slot ==> k in s'.store && s'.store[k] == s.store[k])
            && (slot in s.store ==> s.store[slot] in s'.aside && s.store[slot] in GoneOf(s'.procs[pid]))
  {
  }

  /** A leftover can be retried at the start of every reclaim or scan, and only then. */
  lemma LeftoverIsRetried(s: State, pid: Pid, g: nat)
    requires pid in s.procs && g in s.aside
    ensures Step(s, pid, RetryLeftover(g)).Some? <==>
              s.procs[pid].pc == Trying(0) && (s.procs[pid].role.Reclaim? || s.procs[pid].role.Scan?)
  {
  }

  /** What Purge deletes is not in the store directory under any key, in any execution: not
      a store created after the unlock, whether or not its run is still live, and not even
      when the rename itself was unjustified. */
  lemma PurgeTouchesNoStore(run: seq<Label>, c: Pid, g: nat)
    requires Exec(EMPTY, run).Some?
    requires var s := Exec(EMPTY, run).value; c in s.procs && g in GoneOf(s.procs[c])
    ensures OutOfStore(Exec(EMPTY, run).value, g)
  {
    ExecKeepsDisks(EMPTY, run);
    assert GoneOk(Exec(EMPTY, run).value, Exec(EMPTY, run).value.procs[c]);
  }

  // ---- every rename ----------------------------------------------------------------------

  lemma RenameIsSafe(s: State, c: Pid, part: Part, r: Pid)
    requires LockInv(s) && c in s.procs && r in s.procs && Step(s, c, Rename(part)).Some?
    requires s.procs[r].role.target == s.procs[c].role.target
    requires s.procs[c].role.Scan? ==> ScanCovers(s, c, s.procs[r].role.target)
    ensures !Live(s.procs[r])
  {
    assert ProcOk(s, s.procs[c]) && ProcOk(s, s.procs[r]);
    if !s.procs[c].role.Scan? && c != r {
      assert !Clash(s.procs[c], s.procs[r], LockIno(s.procs[c]).value);
    }
  }

  /** At every rename of either part no run on the target is live: under the lock
      unconditionally, after a scan if that scan was not blinded to that target. */
  lemma RenameFindsNoLiveRun(run: seq<Label>, c: Pid, part: Part, r: Pid)
    requires CodeRun(run) && Exec(EMPTY, run).Some?
    requires var s := Exec(EMPTY, run).value;
             && c in s.procs && r in s.procs && Step(s, c, Rename(part)).Some?
             && s.procs[r].role.target == s.procs[c].role.target
             && (s.procs[c].role.Scan? ==> Sighted(EMPTY, run, c, s.procs[c].role.target))
    ensures !Live(Exec(EMPTY, run).value.procs[r])
  {
    ExecKeepsLockInv(EMPTY, run);
    var s := Exec(EMPTY, run).value;
    if s.procs[c].role.Scan? {
      ExecKeepsScan(EMPTY, run, c, s.procs[c].role.target);
    }
    RenameIsSafe(s, c, part, r);
  }

  // ---- the store under a live run ----------------------------------------------------------

  // A run has generations only once it is live, and while it is finds them under its key.
  predicate Finds(s: State, p: Proc) {
    && (p.gens != map[] ==> p.role.Run? && (p.pc.Held? || p.pc.Ended?))
    && (Live(p) ==> forall part :: part in p.gens ==>
          Slot(p.role.target, part) in s.store && s.store[Slot(p.role.target, part)] == p.gens[part])
  }

  ghost predicate TargetInv(s: State, t: Target) {
    && LockInv(s)
    && (forall r :: r in s.procs && s.procs[r].role.target == t ==> Finds(s, s.procs[r]))
    && (forall c :: c in s.procs && s.procs[c].role == Scan(t) ==> ScanCovers(s, c, t))
  }

  // No scan that is after t's own store is blinded to t.
  ghost predicate ScansSighted(s: State, run: seq<Label>, t: Target)
    decreases |run|
  {
    run == [] ||
    var next := Step(s, run[0].pid, run[0].act);
    && (forall c :: c in s.procs && s.procs[c].role == Scan(t) ==> !Blinds(s, run[0].pid, run[0].act, c, t))
    && (next.Some? ==> ScansSighted(next.value, run[1..], t))
  }

  // A rename on the target finds no live run there.
  lemma TargetRenameIsSafe(s: State, pid: Pid, act: Act, r: Pid)
    requires r in s.procs && TargetInv(s, s.procs[r].role.target) && Code(act) && Step(s, pid, act).Some?
    requires pid in s.procs && act.Rename? && s.procs[pid].role.target == s.procs[r].role.target
    ensures !Live(s.procs[r])
  {
    RenameIsSafe(s, pid, act.part, r);
  }

  lemma StepKeepsOthersFind(s: State, pid: Pid, act: Act, r: Pid)
    requires r in s.procs && TargetInv(s, s.procs[r].role.target)
    requires Code(act) && Step(s, pid, act).Some? && r != pid
    ensures Finds(Step(s, pid, act).value, s.procs[r])
  {
    assert Finds(s, s.procs[r]);
    if pid in s.procs && act.Rename? && s.procs[pid].role.target == s.procs[r].role.target {
      TargetRenameIsSafe(s, pid, act, r);
    }
  }

  lemma StepKeepsOwnFind(s: State, pid: Pid, act: Act)
    requires pid in s.procs && Finds(s, s.procs[pid]) && ProcOk(s, s.procs[pid])
    requires Code(act) && Step(s, pid, act).Some?
    ensures Finds(Step(s, pid, act).value, Step(s, pid, act).value.procs[pid])
  {
  }

  lemma StepKeepsTarget(s: State, pid: Pid, act: Act, t: Target)
    requires TargetInv(s, t) && Code(act) && Step(s, pid, act).Some?
    requires forall c :: c in s.procs && s.procs[c].role == Scan(t) ==> !Blinds(s, pid, act, c, t)
    ensures TargetInv(Step(s, pid, act).value, t)
  {
    var s' := Step(s, pid, act).value;
    StepKeepsLockInv(s, pid, act);
    StepTouchesOne(s, pid, act);
    forall r | r in s'.procs && s'.procs[r].role.target == t ensures Finds(s', s'.procs[r]) {
      if r != pid {
        StepKeepsOthersFind(s, pid, act, r);
      } else if pid in s.procs {
        assert ProcOk(s, s.procs[pid]);
        StepKeepsOwnFind(s, pid, act);
      }
    }
    forall c | c in s'.procs && s'.procs[c].role == Scan(t) ensures ScanCovers(s', c, t) {
      if c in s.procs {
        StepKeepsScan(s, pid, act, c, t);
      }
    }
  }

  lemma {:induction false} ExecKeepsTarget(s: State, run: seq<Label>, t: Target)
    requires TargetInv(s, t) && CodeRun(run) && ScansSighted(s, run, t) && Exec(s, run).Some?
    ensures TargetInv(Exec(s, run).value, t)
    decreases |run|
  {
    if run != [] {
      assert run[0] in run;
      StepKeepsTarget(s, run[0].pid, run[0].act, t);
      ExecKeepsTarget(Step(s, run[0].pid, run[0].act).value, run[1..], t);
    }
  }

  /** A live run still finds, under its target's key, the very generations its engine
      opened, and no collector has them aside, if no scan after this target's own store was
      blinded to it.  Scans after other stores may be blinded at will. */
  lemma StoreStaysUnderLiveRun(run: seq<Label>, r: Pid, part: Part)
    requires CodeRun(run) && Exec(EMPTY, run).Some?
    requires var s := Exec(EMPTY, run).value;
             && r in s.procs && Live(s.procs[r]) && part in s.procs[r].gens
             && ScansSighted(EMPTY, run, s.procs[r].role.target)
    ensures var s := Exec(EMPTY, run).value; var p := s.procs[r];
            && Slot(p.role.target, part) in s.store && s.store[Slot(p.role.target, part)] == p.gens[part]
            && p.gens[part] !in s.aside
  {
    var s := Exec(EMPTY, run).value;
    ExecKeepsTarget(EMPTY, run, s.procs[r].role.target);
    ExecKeepsDisks(EMPTY, run);
    assert Finds(s, s.procs[r]);
  }

  // The same, for what a collector is about to delete.
  lemma PurgeSparesLiveRuns(run: seq<Label>, c: Pid, r: Pid, part: Part)
    requires CodeRun(run) && Exec(EMPTY, run).Some?
    requires var s := Exec(EMPTY, run).value;
             && c in s.procs && r in s.procs && Live(s.procs[r]) && part in s.procs[r].gens
             && ScansSighted(EMPTY, run, s.procs[r].role.target)
    ensures var s := Exec(EMPTY, run).value; s.procs[r].gens[part] !in GoneOf(s.procs[c])
  {
    var s := Exec(EMPTY, run).value;
    StoreStaysUnderLiveRun(run, r, part);
    if s.procs[r].gens[part] in GoneOf(s.procs[c]) {
      PurgeTouchesNoStore(run, c, s.procs[r].gens[part]);
    }
  }

  // No collector treats t's store as one it cannot attribute.
  predicate Attributed(run: seq<Label>, t: Target) { forall l :: l in run ==> l.act != Spawn(Scan(t)) }

  lemma {:induction false} AttributedIsSighted(s: State, run: seq<Label>, t: Target)
    requires Attributed(run, t) && forall q :: q in s.procs ==> s.procs[q].role != Scan(t)
    ensures ScansSighted(s, run, t)
    decreases |run|
  {
    if run != [] && Step(s, run[0].pid, run[0].act).Some? {
      assert run[0] in run;
      AttributedIsSighted(Step(s, run[0].pid, run[0].act).value, run[1..], t);
    }
  }

  /** THE STORE IS SAFE.  An attributed store stays under its live run in every execution of
      the code, whatever scans after other stores go on beside it. */
  lemma AttributedStoreStays(run: seq<Label>, r: Pid, part: Part)
    requires CodeRun(run) && Exec(EMPTY, run).Some?
    requires var s := Exec(EMPTY, run).value;
             && r in s.procs && Live(s.procs[r]) && part in s.procs[r].gens
             && Attributed(run, s.procs[r].role.target)
    ensures var s := Exec(EMPTY, run).value; var p := s.procs[r];
            && Slot(p.role.target, part) in s.store && s.store[Slot(p.role.target, part)] == p.gens[part]
            && p.gens[part] !in s.aside
  {
    AttributedIsSighted(EMPTY, run, Exec(EMPTY, run).value.procs[r].role.target);
    StoreStaysUnderLiveRun(run, r, part);
  }
}
