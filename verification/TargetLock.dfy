/**
 The per-target lock protocol that makes `snug engine gc` safe.

 Any number of processes run interleaved: sandbox runs, which hold the target's
 lock file SHARED for life; sweepers, which unlink lock files nobody holds;
 reclaimers, which hold the lock EXCLUSIVELY while they rename a store aside;
 dry-run probes; and scanners, which ask whether any run at all is live before
 they touch a store no target can be named for.  Every system call is one step
 and any process may stop for good between two of its steps.
 */
module TargetLock {
  import opened Options

  type Pid = nat
  type Target = string

  // A lock file on disk.  The name in the directory is a function of the target,
  // so an inode records the target whose name it was created under.
  datatype Inode = Inode(target: Target, serial: nat)

  datatype Role =
    | Run(target: Target)
    | Sweep(target: Target)
    | Reclaim(target: Target)
    | Probe(target: Target)
    | Scan(target: Target)

  // What an engine keeps under its target's key, each in a directory of its own.
  datatype Part = Image | Runroot

  datatype Slot = Slot(target: Target, part: Part)

  /** Moved and Disconnected: the image store, then the runroot too, has been renamed
      aside; gone is what the renames found.  A scanner has no lock there. */
  datatype Pc =
    | Trying(attempt: nat)
    | Opened(ino: Inode, attempt: nat)
    | Locked(ino: Inode, attempt: nat)
    | Held(ino: Inode)
    | Moved(lock: Option<Inode>, gone: set<nat>)
    | Disconnected(lock: Option<Inode>, gone: set<nat>)
    | Released(gone: set<nat>)
    | SweepLinked(ino: Inode)
    | SweepNamed(ino: Inode)
    | SaidIdle
    | Listed(todo: set<Target>)
    | ScanOpened(ino: Inode, todo: set<Target>)
    | ScanLocked(ino: Inode, todo: set<Target>)
    | Ended

  // gens says which generation of each part a run's engine works in, once it has one.
  datatype Proc = Proc(role: Role, pc: Pc, gens: map<Part, nat>)

  /** names is the lock directory; store maps a slot to the generation of the
      directory its key names; aside holds the generations renamed aside. */
  datatype State = State(
    names: map<Target, Inode>, nextSerial: nat, procs: map<Pid, Proc>,
    store: map<Slot, nat>, aside: set<nat>, nextGen: nat)

  // The last two are what the code does NOT do; see the counterexamples.
  datatype Act =
    | Spawn(role: Role) | Exit | Open | Flock | CheckLinked | UseStore(part: Part)
    | CheckName | Unlink | Rename(part: Part) | Unlock | Purge(gen: nat) | RetryLeftover(gen: nat)
    | List | OpenNext(next: Target) | SkipUnopenable(next: Target)
    | RenameAfterProbe | SkipLinkCheck

  const ATTEMPTS: nat := 4

  const EMPTY := State(map[], 0, map[], map[], {}, 0)

  // ---- locks -------------------------------------------------------------

  function LockIno(p: Proc): Option<Inode> {
    match p.pc
    case Locked(i, _) => Some(i)
    case Held(i) => Some(i)
    case Moved(lock, _) => lock
    case Disconnected(lock, _) => lock
    case SweepLinked(i) => Some(i)
    case SweepNamed(i) => Some(i)
    case ScanLocked(i, _) => Some(i)
    case _ => None
  }

  // Runs share; everyone else asks for the lock exclusively.
  predicate Exclusive(p: Proc) { !p.role.Run? }

  predicate Clash(p: Proc, q: Proc, ino: Inode) {
    LockIno(q) == Some(ino) && (Exclusive(p) || Exclusive(q))
  }

  predicate Conflict(s: State, pid: Pid, ino: Inode)
    requires pid in s.procs
  {
    exists q :: q in s.procs && q != pid && Clash(s.procs[pid], s.procs[q], ino)
  }

  // Nlink > 0: the only link a lock file ever has is its own name.
  predicate Linked(s: State, ino: Inode) {
    ino.target in s.names && s.names[ino.target] == ino
  }

  predicate Live(p: Proc) { p.role.Run? && p.pc.Held? }

  // ---- steps -------------------------------------------------------------

  // Who creates the lock file when it is not there.
  predicate Creates(p: Proc) { p.role.Run? || p.role.Reclaim? }

  function NameOrNew(s: State, t: Target): Inode {
    if t in s.names then s.names[t] else Inode(t, s.nextSerial)
  }

  // Only the holders retry; a sweeper or a probe that meets a lock is done.
  function Retry(p: Proc, attempt: nat): Pc {
    if Creates(p) && attempt + 1 < ATTEMPTS then Trying(attempt + 1) else Ended
  }

  // What RenameAside disconnects: a directory that is not there is not a fault.
  function Gone(s: State, t: Target, part: Part): set<nat> {
    if Slot(t, part) in s.store then {s.store[Slot(t, part)]} else {}
  }

  function AfterOpen(s: State, p: Proc): Option<Pc> {
    if !p.pc.Trying? || p.role.Scan? then None
    else if p.role.target in s.names || Creates(p) then
      Some(Opened(NameOrNew(s, p.role.target), p.pc.attempt))
    else Some(if p.role.Probe? then SaidIdle else Ended)
  }

  function AfterFlock(s: State, pid: Pid, p: Proc): Option<Pc>
    requires pid in s.procs
  {
    match p.pc
    case Opened(ino, a) => Some(if Conflict(s, pid, ino) then Retry(p, a) else Locked(ino, a))
    case ScanOpened(ino, todo) =>
      Some(if Conflict(s, pid, ino) then Ended else ScanLocked(ino, todo - {ino.target}))
    case _ => None
  }

  function AfterCheckLinked(s: State, p: Proc): Option<Pc> {
    if !p.pc.Locked? || p.role.Probe? then None
    else if Linked(s, p.pc.ino) then Some(if p.role.Sweep? then SweepLinked(p.pc.ino) else Held(p.pc.ino))
    else Some(Retry(p, p.pc.attempt))
  }

  // The image store goes first, then the runroot.
  function AfterRename(s: State, p: Proc, part: Part): Option<Pc> {
    match (part, p.pc)
    case (Image, Held(ino)) =>
      if p.role.Reclaim? then Some(Moved(Some(ino), Gone(s, p.role.target, Image))) else None
    case (Image, Listed(todo)) => if todo == {} then Some(Moved(None, Gone(s, p.role.target, Image))) else None
    case (Runroot, Moved(lock, gone)) => Some(Disconnected(lock, gone + Gone(s, p.role.target, Runroot)))
    case _ => None
  }

  function AfterUnlock(p: Proc): Option<Pc> {
    match p.pc
    case Moved(_, gone) => Some(Released(gone))
    case Disconnected(_, gone) => Some(Released(gone))
    case ScanLocked(_, todo) => Some(Listed(todo))
    case Locked(_, _) => if p.role.Probe? then Some(SaidIdle) else None
    case _ => None
  }

  function AfterOpenNext(s: State, p: Proc, t: Target): Option<Pc> {
    if !p.pc.Listed? || t !in p.pc.todo then None
    else if t in s.names then Some(ScanOpened(s.names[t], p.pc.todo))
    else Some(Listed(p.pc.todo - {t}))
  }

  // Where the process goes; None when the step is not one it can take here.
  function NextPc(s: State, pid: Pid, p: Proc, act: Act): Option<Pc>
    requires pid in s.procs
  {
    match act
    case Spawn(_) => None
    case Exit => Some(Ended)
    case Open => AfterOpen(s, p)
    case Flock => AfterFlock(s, pid, p)
    case CheckLinked => AfterCheckLinked(s, p)
    case UseStore(part) => if Live(p) && part !in p.gens then Some(p.pc) else None
    case CheckName =>
      if p.pc.SweepLinked? then Some(if Linked(s, p.pc.ino) then SweepNamed(p.pc.ino) else Ended) else None
    case Unlink => if p.pc.SweepNamed? then Some(Ended) else None
    case Rename(part) => AfterRename(s, p, part)
    case Unlock => AfterUnlock(p)
    case Purge(g) => if p.pc.Released? && g in p.pc.gone then Some(Released(p.pc.gone - {g})) else None
    case RetryLeftover(g) =>
      if p.pc == Trying(0) && (p.role.Reclaim? || p.role.Scan?) && g in s.aside then Some(p.pc) else None
    case List => if p.role.Scan? && p.pc.Trying? then Some(Listed(s.names.Keys)) else None
    case OpenNext(t) => AfterOpenNext(s, p, t)
    case SkipUnopenable(t) =>
      if p.pc.Listed? && t in p.pc.todo then Some(Listed(p.pc.todo - {t})) else None
    case RenameAfterProbe => if p.pc.SaidIdle? then Some(Released(Gone(s, p.role.target, Image))) else None
    case SkipLinkCheck => if p.pc.Locked? && p.role.Run? then Some(Held(p.pc.ino)) else None
  }

  function NextGens(s: State, p: Proc, act: Act): map<Part, nat> {
    if !act.UseStore? then p.gens
    else
      var slot := Slot(p.role.target, act.part);
      p.gens[act.part := if slot in s.store then s.store[slot] else s.nextGen]
  }

  // Unlink is Remove(name): it takes whatever the name points at now.
  function NextNames(s: State, p: Proc, act: Act): map<Target, Inode> {
    if act.Open? && Creates(p) then s.names[p.role.target := NameOrNew(s, p.role.target)]
    else if act.Unlink? then s.names - {p.role.target}
    else s.names
  }

  // The directory a step renames aside.
  function Renamed(p: Proc, act: Act): Option<Slot> {
    if act.Rename? then Some(Slot(p.role.target, act.part))
    else if act.RenameAfterProbe? then Some(Slot(p.role.target, Image))
    else None
  }

  function NextStore(s: State, p: Proc, act: Act): map<Slot, nat> {
    if act.UseStore? && Slot(p.role.target, act.part) !in s.store then
      s.store[Slot(p.role.target, act.part) := s.nextGen]
    else if Renamed(p, act).Some? then s.store - {Renamed(p, act).value}
    else s.store
  }

  function NextAside(s: State, p: Proc, act: Act): set<nat> {
    var slot := Renamed(p, act);
    if slot.Some? && slot.value in s.store then s.aside + {s.store[slot.value]}
    else if act.Purge? || act.RetryLeftover? then s.aside - {act.gen}
    else s.aside
  }

  function Step(s: State, pid: Pid, act: Act): Option<State> {
    if act.Spawn? then
      if pid in s.procs then None
      else Some(s.(procs := s.procs[pid := Proc(act.role, Trying(0), map[])]))
    else if pid !in s.procs then None
    else
      var p := s.procs[pid];
      var pc := NextPc(s, pid, p, act);
      if pc.None? then None
      else Some(State(NextNames(s, p, act), s.nextSerial + 1,
                      s.procs[pid := Proc(p.role, pc.value, NextGens(s, p, act))],
                      NextStore(s, p, act), NextAside(s, p, act), s.nextGen + 1))
  }

  // The steps the program takes.
  predicate Code(act: Act) { !act.RenameAfterProbe? && !act.SkipLinkCheck? }

  datatype Label = Label(pid: Pid, act: Act)

  function Exec(s: State, run: seq<Label>): Option<State>
    decreases |run|
  {
    if run == [] then Some(s)
    else
      var next := Step(s, run[0].pid, run[0].act);
      if next.None? then None else Exec(next.value, run[1..])
  }

  predicate CodeRun(run: seq<Label>) { forall l :: l in run ==> Code(l.act) }

  // One more step at the end of an execution.
  lemma {:induction false} ExecThen(s: State, run: seq<Label>, l: Label)
    requires Exec(s, run).Some?
    ensures Exec(s, run + [l]) == Step(Exec(s, run).value, l.pid, l.act)
    decreases |run|
  {
    if run == [] {
      assert run + [l] == [l];
      assert [l][1..] == [];
    } else {
      assert (run + [l])[1..] == run[1..] + [l];
      ExecThen(Step(s, run[0].pid, run[0].act).value, run[1..], l);
    }
  }

  lemma {:induction false} ExecMore(s: State, run: seq<Label>, more: seq<Label>)
    requires Exec(s, run).Some?
    ensures Exec(s, run + more) == Exec(Exec(s, run).value, more)
    decreases |run|
  {
    if run == [] {
      assert run + more == more;
    } else {
      assert (run + more)[1..] == run[1..] + more;
      ExecMore(Step(s, run[0].pid, run[0].act).value, run[1..], more);
    }
  }

  lemma {:induction false} ExecPrefix(s: State, run: seq<Label>, n: nat)
    requires Exec(s, run).Some? && n <= |run|
    ensures Exec(s, run[..n]).Some?
    decreases |run|
  {
    if n > 0 {
      assert run[..n][1..] == run[1..][..n - 1];
      ExecPrefix(Step(s, run[0].pid, run[0].act).value, run[1..], n - 1);
    }
  }

  // ---- the lock invariant: it needs nothing but the code -------------------

  function InoOf(p: Proc): Option<Inode> {
    match p.pc
    case Opened(i, _) => Some(i)
    case ScanOpened(i, _) => Some(i)
    case _ => LockIno(p)
  }

  predicate PcFits(p: Proc) {
    match p.pc
    case Trying(_) => true
    case Opened(_, _) => !p.role.Scan?
    case Locked(_, _) => !p.role.Scan?
    case Held(_) => p.role.Run? || p.role.Reclaim?
    case Moved(lock, _) => if lock.Some? then p.role.Reclaim? else p.role.Scan?
    case Disconnected(lock, _) => if lock.Some? then p.role.Reclaim? else p.role.Scan?
    case Released(_) => p.role.Reclaim? || p.role.Scan?
    case SweepLinked(_) => p.role.Sweep?
    case SweepNamed(_) => p.role.Sweep?
    case SaidIdle => p.role.Probe?
    case Listed(_) => p.role.Scan?
    case ScanOpened(ino, todo) => p.role.Scan? && ino.target in todo
    case ScanLocked(_, _) => p.role.Scan?
    case Ended => true
  }

  // Whoever passed the link check.
  predicate Checked(p: Proc) {
    p.pc.Held? || ((p.pc.Moved? || p.pc.Disconnected?) && p.pc.lock.Some?) || p.pc.SweepLinked? || p.pc.SweepNamed?
  }

  predicate ProcOk(s: State, p: Proc) {
    && PcFits(p)
    && (InoOf(p).Some? ==> InoOf(p).value.serial < s.nextSerial)
    && (InoOf(p).Some? && !p.role.Scan? ==> InoOf(p).value.target == p.role.target)
    && (Checked(p) ==> Linked(s, LockIno(p).value))
  }

  ghost predicate NamesOk(s: State) {
    forall t :: t in s.names ==> s.names[t].target == t && s.names[t].serial < s.nextSerial
  }

  ghost predicate LockInv(s: State) {
    && NamesOk(s)
    && (forall q :: q in s.procs ==> ProcOk(s, s.procs[q]))
    && Compatible(s)
  }

  // flock(2): two holders of one inode are both sharers.
  ghost predicate Compatible(s: State) {
    forall p, q :: p in s.procs && q in s.procs && p != q && LockIno(s.procs[p]).Some? ==>
      !Clash(s.procs[p], s.procs[q], LockIno(s.procs[p]).value)
  }

  lemma StepTouchesOne(s: State, pid: Pid, act: Act)
    requires NamesOk(s) && Code(act) && Step(s, pid, act).Some?
    ensures var s' := Step(s, pid, act).value;
            && pid in s'.procs && s'.procs == s.procs[pid := s'.procs[pid]]
            && s.nextSerial <= s'.nextSerial && (act.Spawn? || pid in s.procs)
            && (pid in s.procs && !act.Spawn? ==> s'.procs[pid].role == s.procs[pid].role)
    ensures var s' := Step(s, pid, act).value;
            forall ino :: !act.Unlink? && Linked(s, ino) ==> Linked(s', ino)
  {
  }

  lemma LockNeedsFlock(s: State, pid: Pid, act: Act)
    requires Code(act) && Step(s, pid, act).Some?
    ensures var p' := Step(s, pid, act).value.procs[pid];
            LockIno(p').Some? ==>
              pid in s.procs && (LockIno(p') == LockIno(s.procs[pid]) || !Conflict(s, pid, LockIno(p').value))
  {
  }

  /** A step touches one process and keeps its role.  It takes a lock only by an
      unopposed flock, and only Unlink makes an inode lose its name. */
  lemma StepShape(s: State, pid: Pid, act: Act)
    requires LockInv(s) && Code(act) && Step(s, pid, act).Some?
    ensures var s' := Step(s, pid, act).value;
            && pid in s'.procs && s'.procs == s.procs[pid := s'.procs[pid]]
            && (forall ino :: !act.Unlink? && Linked(s, ino) ==> Linked(s', ino))
            && s.nextSerial <= s'.nextSerial && (act.Spawn? || pid in s.procs)
    ensures var p' := Step(s, pid, act).value.procs[pid];
            LockIno(p').Some? ==>
              && pid in s.procs && p'.role == s.procs[pid].role
              && (LockIno(p') == LockIno(s.procs[pid]) || !Conflict(s, pid, LockIno(p').value))
  {
    StepTouchesOne(s, pid, act);
    LockNeedsFlock(s, pid, act);
  }

  lemma NextPcOk(s: State, pid: Pid, p: Proc, act: Act)
    requires NamesOk(s) && ProcOk(s, p) && Code(act)
    requires pid in s.procs && NextPc(s, pid, p, act).Some?
    ensures var p' := p.(pc := NextPc(s, pid, p, act).value);
            && PcFits(p')
            && (InoOf(p').Some? ==> InoOf(p').value.serial <= s.nextSerial)
            && (InoOf(p').Some? && !p.role.Scan? ==> InoOf(p').value.target == p.role.target)
            && (InoOf(p') == InoOf(p) || act.Open? || act.OpenNext? || InoOf(p').None?)
            && (Checked(p') ==> Linked(s, LockIno(p').value) && !act.Open? && !act.Unlink?)
  {
  }

  lemma StepperOk(s: State, pid: Pid, act: Act)
    requires NamesOk(s) && Code(act) && Step(s, pid, act).Some?
    requires pid in s.procs && ProcOk(s, s.procs[pid])
    ensures var s' := Step(s, pid, act).value;
            NamesOk(s') && pid in s'.procs && ProcOk(s', s'.procs[pid])
  {
    NextPcOk(s, pid, s.procs[pid], act);
  }

  lemma OthersOk(s: State, pid: Pid, act: Act, q: Pid)
    requires LockInv(s) && Code(act) && Step(s, pid, act).Some? && q in s.procs && q != pid
    ensures ProcOk(Step(s, pid, act).value, s.procs[q])
  {
    StepShape(s, pid, act);
    assert ProcOk(s, s.procs[q]);
    if act.Unlink? && Checked(s.procs[q]) {
      // The sweeper holds this inode exclusively, so nobody else is checked on it.
      assert ProcOk(s, s.procs[pid]);
      assert !Clash(s.procs[pid], s.procs[q], LockIno(s.procs[pid]).value);
    }
  }

  lemma StepKeepsCompatible(s: State, pid: Pid, act: Act)
    requires LockInv(s) && Code(act) && Step(s, pid, act).Some?
    ensures Compatible(Step(s, pid, act).value)
  {
    var s' := Step(s, pid, act).value;
    StepShape(s, pid, act);
    forall p, q | p in s'.procs && q in s'.procs && p != q && LockIno(s'.procs[p]).Some?
      ensures !Clash(s'.procs[p], s'.procs[q], LockIno(s'.procs[p]).value)
    {
      var ino := LockIno(s'.procs[p]).value;
      if p == pid {
        assert p in s.procs && s'.procs[q] == s.procs[q];
        assert Conflict(s, pid, ino) || !Clash(s.procs[p], s.procs[q], ino);
      } else if q == pid && LockIno(s'.procs[q]) == Some(ino) {
        assert q in s.procs && s'.procs[p] == s.procs[p];
        assert Conflict(s, pid, ino) || !Clash(s.procs[q], s.procs[p], ino);
      }
    }
  }

  lemma StepKeepsLockInv(s: State, pid: Pid, act: Act)
    requires LockInv(s) && Code(act) && Step(s, pid, act).Some?
    ensures LockInv(Step(s, pid, act).value)
  {
    var s' := Step(s, pid, act).value;
    StepShape(s, pid, act);
    if pid in s.procs {
      StepperOk(s, pid, act);
    }
    StepKeepsCompatible(s, pid, act);
    forall q | q in s'.procs ensures ProcOk(s', s'.procs[q]) {
      if q != pid {
        OthersOk(s, pid, act, q);
      }
    }
  }

  lemma {:induction false} ExecKeepsLockInv(s: State, run: seq<Label>)
    requires LockInv(s) && CodeRun(run) && Exec(s, run).Some?
    ensures LockInv(Exec(s, run).value)
    decreases |run|
  {
    if run != [] {
      assert run[0] in run;
      StepKeepsLockInv(s, run[0].pid, run[0].act);
      ExecKeepsLockInv(Step(s, run[0].pid, run[0].act).value, run[1..]);
    }
  }

  /** HOLD IS SAFE.  In every state any interleaving reaches, while a reclaimer is
      between its link check and its unlock no run on its target is live: none was
      when it took the lock, and none becomes so before it lets go. */
  lemma NoLiveRunUnderReclaim(run: seq<Label>, c: Pid, r: Pid)
    requires CodeRun(run) && Exec(EMPTY, run).Some?
    requires var s := Exec(EMPTY, run).value;
             && c in s.procs && s.procs[c].role.Reclaim?
             && (s.procs[c].pc.Held? || s.procs[c].pc.Moved? || s.procs[c].pc.Disconnected?)
             && r in s.procs && s.procs[r].role.target == s.procs[c].role.target
    ensures !Live(Exec(EMPTY, run).value.procs[r])
  {
    ExecKeepsLockInv(EMPTY, run);
    var s := Exec(EMPTY, run).value;
    assert ProcOk(s, s.procs[c]) && ProcOk(s, s.procs[r]);
    if c != r {
      assert !Clash(s.procs[c], s.procs[r], LockIno(s.procs[c]).value);
    }
  }

  /** A sweeper never unlinks a file it did not lock, nor one a run, a reclaimer or
      another sweeper holds: when it is about to call Remove, the name still points
      at the very inode it holds exclusively. */
  lemma SweepUnlinksOnlyItsOwnInode(run: seq<Label>, w: Pid, q: Pid)
    requires CodeRun(run) && Exec(EMPTY, run).Some?
    requires var s := Exec(EMPTY, run).value;
             w in s.procs && q in s.procs && q != w && Step(s, w, Unlink).Some?
    ensures var s := Exec(EMPTY, run).value;
            && s.procs[w].role.target in s.names
            && s.names[s.procs[w].role.target] == s.procs[w].pc.ino
            && LockIno(s.procs[q]) != Some(s.procs[w].pc.ino)
  {
    ExecKeepsLockInv(EMPTY, run);
    var s := Exec(EMPTY, run).value;
    assert ProcOk(s, s.procs[w]);
    assert !Clash(s.procs[w], s.procs[q], LockIno(s.procs[w]).value);
  }

  /** A live run stays visible to everyone who opens its lock by NAME: the name
      points at the inode it holds, so no other process can take it exclusively. */
  lemma LiveRunIsVisible(run: seq<Label>, r: Pid, q: Pid)
    requires CodeRun(run) && Exec(EMPTY, run).Some?
    requires var s := Exec(EMPTY, run).value;
             r in s.procs && Live(s.procs[r]) && q in s.procs && q != r && Exclusive(s.procs[q])
    ensures var s := Exec(EMPTY, run).value;
            && s.procs[r].role.target in s.names
            && Conflict(s, q, s.names[s.procs[r].role.target])
  {
    ExecKeepsLockInv(EMPTY, run);
    var s := Exec(EMPTY, run).value;
    assert ProcOk(s, s.procs[r]);
    assert Clash(s.procs[q], s.procs[r], s.names[s.procs[r].role.target]);
  }

  // ---- what a flock finds ------------------------------------------------------------------

  /** Runs share.  A run's flock succeeds if and only if nobody but other runs holds the file;
      anyone else's if and only if nobody at all does.  A run or a reclaimer that misses goes
      round again, four times in all. */
  lemma FlockIff(s: State, pid: Pid)
    requires pid in s.procs && s.procs[pid].pc.Opened?
    ensures Step(s, pid, Flock).Some?
    ensures var p, p' := s.procs[pid], Step(s, pid, Flock).value.procs[pid];
            && (p'.pc == Locked(p.pc.ino, p.pc.attempt) <==>
                  forall q :: q in s.procs && q != pid && LockIno(s.procs[q]) == Some(p.pc.ino) ==>
                    p.role.Run? && s.procs[q].role.Run?)
            && (p'.pc != Locked(p.pc.ino, p.pc.attempt) ==>
                  p'.pc == if (p.role.Run? || p.role.Reclaim?) && p.pc.attempt < 3 then Trying(p.pc.attempt + 1) else Ended)
  {
  }

  /** The link check succeeds if and only if the target's name still leads to the file. */
  lemma LinkCheckIff(s: State, pid: Pid)
    requires LockInv(s) && pid in s.procs && s.procs[pid].pc.Locked? && !s.procs[pid].role.Probe?
    ensures Step(s, pid, CheckLinked).Some?
    ensures var p, p' := s.procs[pid], Step(s, pid, CheckLinked).value.procs[pid];
            var linked := p.role.target in s.names && s.names[p.role.target] == p.pc.ino;
            p'.pc == if linked then (if p.role.Sweep? then SweepLinked(p.pc.ino) else Held(p.pc.ino))
                     else if (p.role.Run? || p.role.Reclaim?) && p.pc.attempt < 3 then Trying(p.pc.attempt + 1)
                     else Ended
  {
    assert ProcOk(s, s.procs[pid]);
  }

  // Open makes the file for those who may make it, and finds it for the others.
  lemma OpenIff(s: State, pid: Pid)
    requires LockInv(s) && pid in s.procs && s.procs[pid].pc.Trying? && !s.procs[pid].role.Scan?
    ensures Step(s, pid, Open).Some?
    ensures var p, s' := s.procs[pid], Step(s, pid, Open).value;
            var t := p.role.target;
            if t in s.names || p.role.Run? || p.role.Reclaim? then
              && t in s'.names && s'.procs[pid].pc == Opened(s'.names[t], p.pc.attempt)
              && (t in s.names ==> s'.names == s.names)
            else s'.names == s.names && s'.procs[pid].pc == if p.role.Probe? then SaidIdle else Ended
  {
  }

  /** A live run's engine opens each part once: the one under its key if there is one, and a
      new one there otherwise. */
  lemma UseStoreIff(s: State, pid: Pid, part: Part)
    requires pid in s.procs
    ensures var p, slot := s.procs[pid], Slot(s.procs[pid].role.target, part);
            && (Step(s, pid, UseStore(part)).Some? <==> p.role.Run? && p.pc.Held? && part !in p.gens)
            && (Step(s, pid, UseStore(part)).Some? ==>
                  var s' := Step(s, pid, UseStore(part)).value;
                  && slot in s'.store && s'.store == s.store[slot := s'.store[slot]]
                  && (if slot in s.store then s'.store[slot] == s.store[slot] else s'.store[slot] == s.nextGen)
                  && s'.procs == s.procs[pid := p.(gens := p.gens[part := s'.store[slot]])])
  {
  }

  // Whoever holds the file at t's name is a run.
  ghost predicate OnlyRuns(s: State, t: Target) {
    t in s.names ==> forall q :: q in s.procs && LockIno(s.procs[q]) == Some(s.names[t]) ==> s.procs[q].role.Run?
  }

  lemma RunSpawns(s: State, pid: Pid, t: Target) returns (s': State)
    requires LockInv(s) && pid !in s.procs && OnlyRuns(s, t)
    ensures Step(s, pid, Spawn(Run(t))) == Some(s') && LockInv(s') && OnlyRuns(s', t)
    ensures s'.procs == s.procs[pid := Proc(Run(t), Trying(0), map[])]
  {
    StepKeepsLockInv(s, pid, Spawn(Run(t)));
    s' := Step(s, pid, Spawn(Run(t))).value;
  }

  lemma RunOpens(s: State, pid: Pid, t: Target) returns (s': State)
    requires LockInv(s) && pid in s.procs && s.procs[pid] == Proc(Run(t), Trying(0), map[]) && OnlyRuns(s, t)
    ensures Step(s, pid, Open) == Some(s') && t in s'.names && s'.names[t].target == t
    ensures s'.procs == s.procs[pid := Proc(Run(t), Opened(s'.names[t], 0), map[])] && OnlyRuns(s', t)
  {
    OpenIff(s, pid);
    s' := Step(s, pid, Open).value;
    forall q | q in s'.procs && LockIno(s'.procs[q]) == Some(s'.names[t]) ensures s'.procs[q].role.Run? {
      assert q != pid ==> ProcOk(s, s.procs[q]);
    }
  }

  lemma RunLocks(s: State, pid: Pid, t: Target) returns (s': State)
    requires pid in s.procs && t in s.names && OnlyRuns(s, t)
    requires s.procs[pid] == Proc(Run(t), Opened(s.names[t], 0), map[])
    ensures Step(s, pid, Flock) == Some(s') && s'.names == s.names
    ensures s'.procs == s.procs[pid := Proc(Run(t), Locked(s.names[t], 0), map[])]
  {
    FlockIff(s, pid);
    s' := Step(s, pid, Flock).value;
  }

  lemma RunGoesLive(s: State, pid: Pid, t: Target) returns (s': State)
    requires pid in s.procs && t in s.names && s.names[t].target == t
    requires s.procs[pid] == Proc(Run(t), Locked(s.names[t], 0), map[])
    ensures Step(s, pid, CheckLinked) == Some(s') && s'.names == s.names
    ensures s'.procs == s.procs[pid := Proc(Run(t), Held(s.names[t]), map[])]
  {
    s' := Step(s, pid, CheckLinked).value;
  }

  // The four states of a run's start.
  lemma RunStarts(s: State, pid: Pid, t: Target) returns (s1: State, s2: State, s3: State, s4: State)
    requires LockInv(s) && pid !in s.procs && OnlyRuns(s, t)
    ensures Step(s, pid, Spawn(Run(t))) == Some(s1) && Step(s1, pid, Open) == Some(s2)
    ensures Step(s2, pid, Flock) == Some(s3) && Step(s3, pid, CheckLinked) == Some(s4)
    ensures OnlyRuns(s4, t) && t in s4.names
    ensures s4.procs == s.procs[pid := Proc(Run(t), Held(s4.names[t]), map[])]
  {
    s1 := RunSpawns(s, pid, t);
    s2, s3, s4 := RunContinues(s1, pid, t);
  }

  lemma RunContinues(s1: State, pid: Pid, t: Target) returns (s2: State, s3: State, s4: State)
    requires LockInv(s1) && pid in s1.procs && s1.procs[pid] == Proc(Run(t), Trying(0), map[]) && OnlyRuns(s1, t)
    ensures Step(s1, pid, Open) == Some(s2) && Step(s2, pid, Flock) == Some(s3) && Step(s3, pid, CheckLinked) == Some(s4)
    ensures OnlyRuns(s4, t) && t in s4.names
    ensures s4.procs == s1.procs[pid := Proc(Run(t), Held(s4.names[t]), map[])]
  {
    s2 := RunOpens(s1, pid, t);
    s3 := RunLocks(s2, pid, t);
    s4 := RunGoesLive(s3, pid, t);
    OnlyRunsStill(s2, s4, pid, t);
  }

  lemma OnlyRunsStill(s2: State, s4: State, pid: Pid, t: Target)
    requires OnlyRuns(s2, t) && s4.names == s2.names && pid in s4.procs && s4.procs[pid].role.Run?
    requires forall q :: q in s4.procs && q != pid ==> q in s2.procs && s4.procs[q] == s2.procs[q]
    ensures OnlyRuns(s4, t)
  {
  }

  lemma FourSteps(s: State, s1: State, s2: State, s3: State, s4: State, run: seq<Label>)
    requires |run| == 4
    requires Step(s, run[0].pid, run[0].act) == Some(s1) && Step(s1, run[1].pid, run[1].act) == Some(s2)
    requires Step(s2, run[2].pid, run[2].act) == Some(s3) && Step(s3, run[3].pid, run[3].act) == Some(s4)
    ensures Exec(s, run) == Some(s4)
  {
    assert run[1..][1..] == run[2..] && run[2..][1..] == run[3..] && run[3..][1..] == [];
    assert Exec(s3, run[3..]) == Some(s4);
    assert Exec(s2, run[2..]) == Some(s4);
    assert Exec(s1, run[1..]) == Some(s4);
  }

  predicate IsStart(run: seq<Label>, pid: Pid, t: Target) {
    && |run| == 4 && run[0] == Label(pid, Spawn(Run(t))) && run[1] == Label(pid, Open)
    && run[2] == Label(pid, Flock) && run[3] == Label(pid, CheckLinked)
  }

  lemma StartIsCode(run: seq<Label>, pid: Pid, t: Target)
    requires IsStart(run, pid, t)
    ensures CodeRun(run)
  {
  }

  /** A run starts beside any number of others: the four steps of its start make it live
      whenever nobody but runs holds the file at its target's name. */
  lemma RunJoins(s: State, pid: Pid, t: Target) returns (run: seq<Label>, s': State)
    requires LockInv(s) && pid !in s.procs && OnlyRuns(s, t)
    ensures IsStart(run, pid, t) && Exec(s, run) == Some(s') && LockInv(s') && OnlyRuns(s', t)
    ensures pid in s'.procs && s'.procs == s.procs[pid := s'.procs[pid]]
    ensures Live(s'.procs[pid]) && s'.procs[pid].role == Run(t)
  {
    var s1, s2, s3;
    s1, s2, s3, s' := RunStarts(s, pid, t);
    run := [Label(pid, Spawn(Run(t))), Label(pid, Open), Label(pid, Flock), Label(pid, CheckLinked)];
    FourSteps(s, s1, s2, s3, s', run);
    StartIsCode(run, pid, t);
    ExecKeepsLockInv(s, run);
  }

  // At the end of an execution.
  lemma RunJoinsThen(before: seq<Label>, s: State, pid: Pid, t: Target) returns (run: seq<Label>, s': State)
    requires CodeRun(before) && Exec(EMPTY, before) == Some(s)
    requires LockInv(s) && pid !in s.procs && OnlyRuns(s, t)
    ensures IsStart(run, pid, t) && CodeRun(before + run) && Exec(EMPTY, before + run) == Some(s')
    ensures s'.procs.Keys == s.procs.Keys + {pid} && forall q :: q in s.procs ==> s'.procs[q] == s.procs[q]
    ensures Live(s'.procs[pid]) && s'.procs[pid].role == Run(t)
  {
    run, s' := RunJoins(s, pid, t);
    StartIsCode(run, pid, t);
    ExecMore(EMPTY, before, run);
  }

  /** So two runs on one target are live together. */
  lemma TwoRunsShare(t: Target) returns (first: seq<Label>, second: seq<Label>, s: State)
    ensures IsStart(first, 1, t) && IsStart(second, 2, t)
    ensures CodeRun(first + second) && Exec(EMPTY, first + second) == Some(s)
    ensures s.procs.Keys == {1, 2} && Live(s.procs[1]) && Live(s.procs[2])
    ensures s.procs[1].role == Run(t) && s.procs[2].role == Run(t)
  {
    var alone;
    first, alone := RunJoins(EMPTY, 1, t);
    StartIsCode(first, 1, t);
    second, s := RunJoinsThen(first, alone, 2, t);
  }
}
