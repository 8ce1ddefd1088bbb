/**
 The mkdir lock around the host's credential file, as many processes see it.

 Writers are snug's own WriteHost; Others are programs that take the same lock and
 then write what they like.  Each system call and each clock reading is one step,
 and any process may die between two of its steps.  The lock is broken by removing
 whatever is at its name, and released the same way; so it excludes only under a
 condition on the schedule, which is stated exactly.
 */
module StorageLock {
  import opened Options
  import Backoff

  type Pid = nat
  type Content = string

  datatype Tokens = Tokens(access: string, refresh: string)

  /** What the policy package computes: the two tokens a file holds, and the file a
      login turns it into (None when the login is not one). */
  datatype Codec = Codec(tokens: Content -> Tokens, renew: (Content, nat) -> Option<Content>)

  // The directory at the lock's name: which mkdir made it, and when.
  datatype Lock = Lock(id: nat, mtime: int)

  datatype Role = Writer(snap: Tokens, login: nat) | Other

  datatype Outcome = Renewed | NewerLogin | NoLogin | LockHeld | Failed | Died | Left

  datatype Pc =
    | Wait(try: nat)
    | Refused(try: nat)
    | Seen(try: nat, lock: Lock)
    | Breaking(try: nat)
    | In(mine: Lock)
    | Read(mine: Lock, existing: Content)
    | Leaving(mine: Lock, outcome: Outcome)
    | Over(result: Outcome)

  datatype Proc = Proc(role: Role, pc: Pc)

  datatype Edit =
    | Renewal(writer: Pid, snap: Tokens, login: nat, before: Option<Content>, after: Option<Content>)
    | Foreign(before: Option<Content>, after: Option<Content>)

  datatype State = State(
    lock: Option<Lock>, nextId: nat, file: Option<Content>, now: int,
    procs: map<Pid, Proc>, history: seq<Edit>)

  datatype Act =
    | Spawn(role: Role) | Tick(ms: nat) | Die
    | Mkdir | Stat | Judge | Break | ReadFile | Commit | Fail | Write(content: Option<Content>) | Unlock

  const STALE := 15000

  predicate Stale(now: int, lock: Lock) { lock.mtime < now - STALE }

  predicate Inside(p: Proc) { p.pc.In? || p.pc.Read? || p.pc.Leaving? }

  // ---- steps ---------------------------------------------------------------

  // A lock that is gone by the time of the Lstat is not stale: the process retries.
  function AfterWait(try: nat): Pc { if try >= Backoff.TRIES then Over(LockHeld) else Wait(try + 1) }

  // What WriteHost decides from the file it read.
  function Verdict(c: Codec, p: Proc): Outcome
    requires p.pc.Read? && p.role.Writer?
  {
    if c.tokens(p.pc.existing) != p.role.snap then NewerLogin
    else if c.renew(p.pc.existing, p.role.login).None? then Failed
    else Renewed
  }

  // Where the process goes; None when the step is not one it can take here.
  function NextPc(c: Codec, s: State, p: Proc, act: Act): Option<Pc> {
    match (act, p.pc)
    case (Die, _) => if p.pc.Over? then None else Some(Over(Died))
    case (Mkdir, Wait(try)) => Some(if s.lock.Some? then Refused(try) else In(Lock(s.nextId, s.now)))
    case (Stat, Refused(try)) => Some(if s.lock.Some? then Seen(try, s.lock.value) else AfterWait(try))
    case (Judge, Seen(try, seen)) => Some(if Stale(s.now, seen) then Breaking(try) else AfterWait(try))
    case (Break, Breaking(try)) => Some(Wait(try + 1))
    case (ReadFile, In(mine)) =>
      if !p.role.Writer? then None
      else Some(if s.file.Some? then Read(mine, s.file.value) else Leaving(mine, NoLogin))
    case (Commit, Read(mine, _)) => if p.role.Writer? then Some(Leaving(mine, Verdict(c, p))) else None
    case (Fail, In(mine)) => Some(Leaving(mine, Failed))
    case (Fail, Read(mine, _)) => Some(Leaving(mine, Failed))
    case (Write(_), In(_)) => if p.role.Other? then Some(p.pc) else None
    case (Unlock, Leaving(_, outcome)) => Some(Over(outcome))
    case _ => None
  }

  // Break and Unlock both remove whatever is at the name.
  function NextLock(s: State, act: Act): Option<Lock> {
    if act.Mkdir? && s.lock.None? then Some(Lock(s.nextId, s.now))
    else if act.Break? || act.Unlock? then None
    else s.lock
  }

  // The comparison and the renewal touch nothing shared; the rename of the new file does.
  function NextEdit(c: Codec, s: State, pid: Pid, p: Proc, act: Act): Option<Edit> {
    if act.Commit? && p.pc.Read? && p.role.Writer? && Verdict(c, p) == Renewed then
      Some(Renewal(pid, p.role.snap, p.role.login, s.file, c.renew(p.pc.existing, p.role.login)))
    else if act.Write? then Some(Foreign(s.file, act.content))
    else None
  }

  function Step(c: Codec, s: State, pid: Pid, act: Act): Option<State> {
    if act.Spawn? then
      if pid in s.procs then None else Some(s.(procs := s.procs[pid := Proc(act.role, Wait(0))]))
    else if act.Tick? then Some(s.(now := s.now + act.ms))
    else if pid !in s.procs then None
    else
      var p := s.procs[pid];
      var pc, e := NextPc(c, s, p, act), NextEdit(c, s, pid, p, act);
      if pc.None? then None
      else Some(State(NextLock(s, act), s.nextId + 1, if e.Some? then e.value.after else s.file, s.now,
                      s.procs[pid := Proc(p.role, pc.value)],
                      if e.Some? then s.history + [e.value] else s.history))
  }

  datatype Label = Label(pid: Pid, act: Act)

  function Exec(c: Codec, s: State, run: seq<Label>): Option<State>
    decreases |run|
  {
    if run == [] then Some(s)
    else
      var next := Step(c, s, run[0].pid, run[0].act);
      if next.None? then None else Exec(c, next.value, run[1..])
  }

  // ---- what exclusion needs of a step ---------------------------------------------

  // The step that turns a sighting into a decision to break the lock.
  predicate Condemns(s: State, pid: Pid, act: Act) {
    act.Judge? && pid in s.procs && s.procs[pid].pc.Seen? && Stale(s.now, s.procs[pid].pc.lock)
  }

  /** The lock is condemned only when nobody is inside, and taken only when nobody else is
      about to break it. */
  predicate Safe(s: State, pid: Pid, act: Act) {
    && (Condemns(s, pid, act) ==> forall q :: q in s.procs ==> !Inside(s.procs[q]))
    && (act.Mkdir? && s.lock.None? ==> forall q :: q in s.procs && q != pid ==> !s.procs[q].pc.Breaking?)
  }

  ghost predicate SafeRun(c: Codec, s: State, run: seq<Label>)
    decreases |run|
  {
    run == [] ||
    var next := Step(c, s, run[0].pid, run[0].act);
    Safe(s, run[0].pid, run[0].act) && (next.Some? ==> SafeRun(c, next.value, run[1..]))
  }

  // ---- invariant -------------------------------------------------------------------

  // A sighting still names the lock it saw, for as long as that lock is there.
  predicate SightingOk(s: State, p: Proc) {
    p.pc.Seen? ==>
      && p.pc.lock.id < s.nextId
      && (s.lock.Some? && s.lock.value.id == p.pc.lock.id ==> s.lock.value == p.pc.lock)
  }

  ghost predicate ProcOk(s: State, p: Proc) {
    && (Inside(p) ==> s.lock == Some(p.pc.mine))
    && (p.pc.Breaking? ==> forall q :: q in s.procs ==> !Inside(s.procs[q]))
    && SightingOk(s, p)
    && (p.pc.Read? ==> s.file == Some(p.pc.existing) && p.role.Writer?)
  }

  ghost predicate Alone(s: State) {
    forall p, q :: p in s.procs && q in s.procs && Inside(s.procs[p]) && Inside(s.procs[q]) ==> p == q
  }

  ghost predicate Inv(s: State) {
    && Alone(s) && (s.lock.Some? ==> s.lock.value.id < s.nextId)
    && forall q :: q in s.procs ==> ProcOk(s, s.procs[q])
  }

  // A process gets inside only by a mkdir that found no lock, so nobody else is there.
  lemma StepKeepsAlone(c: Codec, s: State, pid: Pid, act: Act)
    requires Inv(s) && Step(c, s, pid, act).Some?
    ensures Alone(Step(c, s, pid, act).value)
  {
    assert pid in s.procs ==> ProcOk(s, s.procs[pid]);
    var s' := Step(c, s, pid, act).value;
    forall p, q | p in s'.procs && q in s'.procs && Inside(s'.procs[p]) && Inside(s'.procs[q])
      ensures p == q
    {
      assert p in s.procs && q in s.procs && ProcOk(s, s.procs[p]) && ProcOk(s, s.procs[q]);
    }
  }

  lemma StepKeepsProc(c: Codec, s: State, pid: Pid, act: Act, q: Pid)
    requires Inv(s) && Step(c, s, pid, act).Some? && Safe(s, pid, act)
    requires q in Step(c, s, pid, act).value.procs && q != pid
    ensures var s' := Step(c, s, pid, act).value; ProcOk(s', s'.procs[q])
  {
    var s' := Step(c, s, pid, act).value;
    assert ProcOk(s, s.procs[q]);
    if pid in s.procs {
      assert ProcOk(s, s.procs[pid]);
      if s.procs[q].pc.Breaking? {
        forall r | r in s'.procs ensures !Inside(s'.procs[r]) {
          assert r in s.procs ==> !Inside(s.procs[r]);
        }
      }
    }
  }

  lemma StepKeepsOwn(c: Codec, s: State, pid: Pid, act: Act)
    requires Inv(s) && pid in s.procs && Step(c, s, pid, act).Some? && Safe(s, pid, act)
    ensures var s' := Step(c, s, pid, act).value; ProcOk(s', s'.procs[pid])
  {
    assert ProcOk(s, s.procs[pid]);
  }

  lemma StepKeepsInv(c: Codec, s: State, pid: Pid, act: Act)
    requires Inv(s) && Step(c, s, pid, act).Some? && Safe(s, pid, act)
    ensures Inv(Step(c, s, pid, act).value)
  {
    var s' := Step(c, s, pid, act).value;
    StepKeepsAlone(c, s, pid, act);
    forall q | q in s'.procs ensures ProcOk(s', s'.procs[q]) {
      if q != pid {
        StepKeepsProc(c, s, pid, act, q);
      } else if q in s.procs {
        StepKeepsOwn(c, s, pid, act);
      }
    }
  }

  lemma {:induction false} ExecKeepsInv(c: Codec, s: State, run: seq<Label>)
    requires Inv(s) && SafeRun(c, s, run) && Exec(c, s, run).Some?
    ensures Inv(Exec(c, s, run).value)
    decreases |run|
  {
    if run != [] {
      StepKeepsInv(c, s, run[0].pid, run[0].act);
      ExecKeepsInv(c, Step(c, s, run[0].pid, run[0].act).value, run[1..]);
    }
  }

  function Initial(file: Option<Content>, now: int): State { State(None, 0, file, now, map[], []) }

  /** At most one process is between its mkdir and its unlock, and the lock at the
      name is the one it made, so its unlock removes no other process's lock. */
  lemma AtMostOneInside(c: Codec, file: Option<Content>, now: int, run: seq<Label>, p: Pid, q: Pid)
    requires SafeRun(c, Initial(file, now), run) && Exec(c, Initial(file, now), run).Some?
    requires var s := Exec(c, Initial(file, now), run).value;
             p in s.procs && q in s.procs && Inside(s.procs[p]) && Inside(s.procs[q])
    ensures var s := Exec(c, Initial(file, now), run).value;
            p == q && s.lock == Some(s.procs[p].pc.mine)
  {
    ExecKeepsInv(c, Initial(file, now), run);
    var s := Exec(c, Initial(file, now), run).value;
    assert ProcOk(s, s.procs[p]);
  }

  // ---- and exactly that ----------------------------------------------------------------

  ghost predicate TwoInside(s: State) {
    exists p, q :: p in s.procs && q in s.procs && p != q && Inside(s.procs[p]) && Inside(s.procs[q])
  }

  // Two more steps of one process, both the program's own, put two processes inside.
  ghost predicate Fatal(c: Codec, s: State, q: Pid) {
    var broken := Step(c, s, q, Break);
    broken.Some? && Step(c, broken.value, q, Mkdir).Some? && TwoInside(Step(c, broken.value, q, Mkdir).value)
  }

  // From a state that keeps the invariant two steps are too few.
  lemma InvIsNotFatal(c: Codec, s: State, q: Pid)
    requires Inv(s)
    ensures !Fatal(c, s, q)
  {
    var broken := Step(c, s, q, Break);
    if broken.Some? && Step(c, broken.value, q, Mkdir).Some? {
      assert ProcOk(s, s.procs[q]);
    }
  }

  lemma UnsafeIsFatal(c: Codec, s: State, pid: Pid, act: Act) returns (q: Pid)
    requires Step(c, s, pid, act).Some? && !Safe(s, pid, act)
    ensures Fatal(c, Step(c, s, pid, act).value, q)
  {
    var inside: Pid;
    if Condemns(s, pid, act) {
      inside :| inside in s.procs && Inside(s.procs[inside]);
      q := pid;
    } else {
      q :| q in s.procs && q != pid && s.procs[q].pc.Breaking?;
      inside := pid;
    }
    var last := Step(c, Step(c, Step(c, s, pid, act).value, q, Break).value, q, Mkdir).value;
    assert Inside(last.procs[q]) && Inside(last.procs[inside]) && q != inside;
  }

  /** A step from a state that keeps the invariant is safe exactly when it keeps it, and
      exactly when no process can then put two inside by breaking and taking the lock. */
  lemma SafeIff(c: Codec, s: State, pid: Pid, act: Act)
    requires Inv(s) && Step(c, s, pid, act).Some?
    ensures Safe(s, pid, act) <==> Inv(Step(c, s, pid, act).value)
    ensures Safe(s, pid, act) <==> forall q :: !Fatal(c, Step(c, s, pid, act).value, q)
  {
    var s' := Step(c, s, pid, act).value;
    if Safe(s, pid, act) {
      StepKeepsInv(c, s, pid, act);
    } else {
      var q := UnsafeIsFatal(c, s, pid, act);
    }
    forall q | Inv(s') ensures !Fatal(c, s', q) { InvIsNotFatal(c, s', q); }
  }

  // At no point of the run is it two steps from having two processes inside.
  ghost predicate NeverFatal(c: Codec, s: State, run: seq<Label>)
    decreases |run|
  {
    && (forall q :: !Fatal(c, s, q))
    && (run != [] ==>
          var next := Step(c, s, run[0].pid, run[0].act);
          next.Some? ==> NeverFatal(c, next.value, run[1..]))
  }

  lemma {:induction false} SafeRunIff(c: Codec, s: State, run: seq<Label>)
    requires Inv(s) && Exec(c, s, run).Some?
    ensures SafeRun(c, s, run) <==> NeverFatal(c, s, run)
    decreases |run|
  {
    forall q ensures !Fatal(c, s, q) { InvIsNotFatal(c, s, q); }
    if run != [] {
      var next := Step(c, s, run[0].pid, run[0].act).value;
      SafeIff(c, s, run[0].pid, run[0].act);
      if Safe(s, run[0].pid, run[0].act) {
        SafeRunIff(c, next, run[1..]);
      }
    }
  }

  /** EXCLUSION, EXACTLY.  A run that starts with no lock is never two steps from having two
      processes between mkdir and unlock if and only if every lock it condemns is condemned
      with nobody inside, and every lock it takes is taken with no other process about to
      break one; and then at most one process is inside at its end too. */
  lemma ExclusionIff(c: Codec, file: Option<Content>, now: int, run: seq<Label>)
    requires Exec(c, Initial(file, now), run).Some?
    ensures SafeRun(c, Initial(file, now), run) <==> NeverFatal(c, Initial(file, now), run)
    ensures SafeRun(c, Initial(file, now), run) ==> !TwoInside(Exec(c, Initial(file, now), run).value)
  {
    SafeRunIff(c, Initial(file, now), run);
    if SafeRun(c, Initial(file, now), run) {
      ExecKeepsInv(c, Initial(file, now), run);
    }
  }

  // ---- the file's history --------------------------------------------------------------

  // Each edit starts from what the one before it left.
  predicate Chain(first: Option<Content>, history: seq<Edit>, last: Option<Content>)
    decreases |history|
  {
    if history == [] then first == last
    else
      var n := |history| - 1;
      history[n].after == last && Chain(first, history[..n], history[n].before)
  }

  // The compare-and-swap: the file replaced held the snapshot's tokens, and the new
  // one is the renewal of exactly that file.
  predicate Swapped(c: Codec, e: Edit) {
    e.Renewal? ==>
      && e.before.Some? && c.tokens(e.before.value) == e.snap
      && e.after.Some? && c.renew(e.before.value, e.login) == e.after
  }

  predicate Won(p: Proc) {
    (p.pc.Leaving? && p.pc.outcome == Renewed) || (p.pc.Over? && p.pc.result in {Renewed, Died})
  }

  ghost predicate WinnersOk(s: State) {
    forall e :: e in s.history && e.Renewal? ==> e.writer in s.procs && Won(s.procs[e.writer])
  }

  ghost predicate HistoryOk(c: Codec, first: Option<Content>, s: State) {
    && Chain(first, s.history, s.file)
    && (forall e :: e in s.history ==> Swapped(c, e))
    && WinnersOk(s)
  }

  lemma ChainExtends(first: Option<Content>, history: seq<Edit>, e: Edit)
    requires Chain(first, history, e.before)
    ensures Chain(first, history + [e], e.after)
  {
    assert (history + [e])[..|history|] == history;
  }

  // What is compared is what the file still holds when it is replaced.
  lemma EditIsASwap(c: Codec, s: State, pid: Pid, p: Proc, act: Act)
    requires ProcOk(s, p) && NextPc(c, s, p, act).Some? && NextEdit(c, s, pid, p, act).Some?
    ensures var e := NextEdit(c, s, pid, p, act).value;
            && e.before == s.file && Swapped(c, e)
            && (e.Renewal? ==> e.writer == pid && Won(p.(pc := NextPc(c, s, p, act).value)))
  {
  }

  lemma StepKeepsWinners(c: Codec, s: State, pid: Pid, act: Act)
    requires WinnersOk(s) && Step(c, s, pid, act).Some?
    requires pid in s.procs ==> ProcOk(s, s.procs[pid])
    ensures WinnersOk(Step(c, s, pid, act).value)
  {
    var s' := Step(c, s, pid, act).value;
    forall e | e in s'.history && e.Renewal? ensures e.writer in s'.procs && Won(s'.procs[e.writer]) {
      if e in s.history {
        assert Won(s.procs[e.writer]);
      } else {
        EditIsASwap(c, s, pid, s.procs[pid], act);
      }
    }
  }

  lemma StepKeepsHistory(c: Codec, first: Option<Content>, s: State, pid: Pid, act: Act)
    requires Inv(s) && HistoryOk(c, first, s) && Step(c, s, pid, act).Some?
    ensures HistoryOk(c, first, Step(c, s, pid, act).value)
  {
    var s' := Step(c, s, pid, act).value;
    assert pid in s.procs ==> ProcOk(s, s.procs[pid]);
    StepKeepsWinners(c, s, pid, act);
    if s'.history != s.history {
      EditIsASwap(c, s, pid, s.procs[pid], act);
      ChainExtends(first, s.history, NextEdit(c, s, pid, s.procs[pid], act).value);
    }
  }

  lemma {:induction false} ExecKeepsHistory(c: Codec, first: Option<Content>, s: State, run: seq<Label>)
    requires Inv(s) && HistoryOk(c, first, s) && SafeRun(c, s, run) && Exec(c, s, run).Some?
    ensures HistoryOk(c, first, Exec(c, s, run).value)
    decreases |run|
  {
    if run != [] {
      StepKeepsInv(c, s, run[0].pid, run[0].act);
      StepKeepsHistory(c, first, s, run[0].pid, run[0].act);
      ExecKeepsHistory(c, first, Step(c, s, run[0].pid, run[0].act).value, run[1..]);
    }
  }

  /** The credential file's whole history is a chain from what was there at the start
      to what is there now: no edit is lost or overwritten unseen.  Every renewal
      replaced a file holding the writer's snapshot by the renewal of exactly that
      file, and a writer that ended any other way appears nowhere in it. */
  lemma HistoryIsAChain(c: Codec, file: Option<Content>, now: int, run: seq<Label>, w: Pid)
    requires SafeRun(c, Initial(file, now), run) && Exec(c, Initial(file, now), run).Some?
    ensures var s := Exec(c, Initial(file, now), run).value;
            && Chain(file, s.history, s.file)
            && (forall e :: e in s.history ==> Swapped(c, e))
            && (w in s.procs && s.procs[w].pc.Over? && s.procs[w].pc.result in {NewerLogin, NoLogin, LockHeld, Failed} ==>
                  forall e :: e in s.history && e.Renewal? ==> e.writer != w)
  {
    ExecKeepsHistory(c, file, Initial(file, now), run);
  }

  // ---- that writers do write -----------------------------------------------------------

  /** A writer that commits ends in Renewed if and only if the file, which is still the one it
      read, holds its snapshot's tokens and renews; the file is then that renewal and the
      history one longer by exactly it.  It ends in NewerLogin if and only if the tokens
      differ, and on either failure nothing has changed. */
  lemma CommitIff(c: Codec, file: Option<Content>, now: int, run: seq<Label>, w: Pid)
    requires SafeRun(c, Initial(file, now), run) && Exec(c, Initial(file, now), run).Some?
    requires var s := Exec(c, Initial(file, now), run).value;
             w in s.procs && s.procs[w].role.Writer? && s.procs[w].pc.Read?
    ensures var s := Exec(c, Initial(file, now), run).value;
            var (existing, snap, login) := (s.procs[w].pc.existing, s.procs[w].role.snap, s.procs[w].role.login);
            && s.file == Some(existing) && Step(c, s, w, Commit).Some?
            && var s' := Step(c, s, w, Commit).value;
               var outcome := if s'.procs[w].pc.Leaving? then s'.procs[w].pc.outcome else Died;
               && (outcome == Renewed <==> c.tokens(existing) == snap && c.renew(existing, login).Some?)
               && (outcome == NewerLogin <==> c.tokens(existing) != snap)
               && (outcome == Failed <==> c.tokens(existing) == snap && c.renew(existing, login).None?)
               && (outcome == Renewed ==>
                     && s'.file == c.renew(existing, login)
                     && s'.history == s.history + [Renewal(w, snap, login, s.file, c.renew(existing, login))])
               && (outcome != Renewed ==> s'.file == s.file && s'.history == s.history)
  {
    ExecKeepsInv(c, Initial(file, now), run);
    assert ProcOk(Exec(c, Initial(file, now), run).value, Exec(c, Initial(file, now), run).value.procs[w]);
  }

  // Whoever says it renewed the file has a renewal of its own in the history.
  ghost predicate RenewersWrote(s: State) {
    forall p :: p in s.procs && SaysRenewed(s.procs[p]) ==> HasRenewal(s.history, p)
  }

  predicate SaysRenewed(p: Proc) {
    (p.pc.Leaving? && p.pc.outcome == Renewed) || (p.pc.Over? && p.pc.result == Renewed)
  }

  predicate HasRenewal(history: seq<Edit>, p: Pid) {
    exists i :: 0 <= i < |history| && history[i].Renewal? && history[i].writer == p
  }

  lemma HistoryGrows(c: Codec, s: State, pid: Pid, act: Act, p: Pid)
    requires Step(c, s, pid, act).Some? && HasRenewal(s.history, p)
    ensures HasRenewal(Step(c, s, pid, act).value.history, p)
  {
    var i :| 0 <= i < |s.history| && s.history[i].Renewal? && s.history[i].writer == p;
    assert Step(c, s, pid, act).value.history[i] == s.history[i];
  }

  lemma NewlyRenewed(c: Codec, s: State, pid: Pid, act: Act)
    requires Step(c, s, pid, act).Some? && pid in Step(c, s, pid, act).value.procs
    requires SaysRenewed(Step(c, s, pid, act).value.procs[pid])
    ensures (pid in s.procs && SaysRenewed(s.procs[pid])) || HasRenewal(Step(c, s, pid, act).value.history, pid)
  {
    var s' := Step(c, s, pid, act).value;
    if act.Commit? && s'.history != s.history {
      assert s'.history[|s.history|].writer == pid;
    }
  }

  lemma {:induction false} ExecKeepsRenewers(c: Codec, s: State, run: seq<Label>)
    requires RenewersWrote(s) && Exec(c, s, run).Some?
    ensures RenewersWrote(Exec(c, s, run).value)
    decreases |run|
  {
    if run != [] {
      var l := run[0];
      var next := Step(c, s, l.pid, l.act).value;
      forall p | p in next.procs && SaysRenewed(next.procs[p]) ensures HasRenewal(next.history, p) {
        if p == l.pid {
          NewlyRenewed(c, s, p, l.act);
        }
        if p in s.procs && SaysRenewed(s.procs[p]) {
          HistoryGrows(c, s, l.pid, l.act, p);
        }
      }
      ExecKeepsRenewers(c, next, run[1..]);
    }
  }

  /** A process that reports a renewal made one, in every run, safe or not. */
  lemma RenewedMeansWritten(c: Codec, file: Option<Content>, now: int, run: seq<Label>, p: Pid)
    requires Exec(c, Initial(file, now), run).Some?
    requires var s := Exec(c, Initial(file, now), run).value;
             p in s.procs && s.procs[p].pc == Over(Renewed)
    ensures exists e :: e in Exec(c, Initial(file, now), run).value.history && e.Renewal? && e.writer == p
  {
    ExecKeepsRenewers(c, Initial(file, now), run);
    var h := Exec(c, Initial(file, now), run).value.history;
    assert HasRenewal(h, p);
    var i :| 0 <= i < |h| && h[i].Renewal? && h[i].writer == p;
    assert h[i] in h;
  }

  // ---- the turns of the loop --------------------------------------------------------------

  /** mkdir takes the lock if and only if there is none; a lock met is looked at, and broken
      if and only if it is more than fifteen seconds old by the clock read after the look; a
      lock not broken costs one of eleven tries, a broken one does not end them. */
  lemma TurnOfTheLoop(c: Codec, s: State, pid: Pid)
    requires pid in s.procs
    ensures var p := s.procs[pid];
            match p.pc
            case Wait(try) =>
              && Step(c, s, pid, Mkdir).Some?
              && var s' := Step(c, s, pid, Mkdir).value;
                 if s.lock.None? then s'.lock.Some? && s'.lock.value.mtime == s.now && s'.procs[pid].pc == In(s'.lock.value)
                 else s'.lock == s.lock && s'.procs[pid].pc == Refused(try)
            case Refused(try) =>
              && Step(c, s, pid, Stat).Some?
              && Step(c, s, pid, Stat).value.procs[pid].pc ==
                   if s.lock.Some? then Seen(try, s.lock.value) else if try < 10 then Wait(try + 1) else Over(LockHeld)
            case Seen(try, lock) =>
              && Step(c, s, pid, Judge).Some?
              && Step(c, s, pid, Judge).value.procs[pid].pc ==
                   if s.now - lock.mtime > 15000 then Breaking(try) else if try < 10 then Wait(try + 1) else Over(LockHeld)
            case Breaking(try) =>
              && Step(c, s, pid, Break).Some? && Step(c, s, pid, Break).value.lock.None?
              && Step(c, s, pid, Break).value.procs[pid].pc == Wait(try + 1)
            case In(mine) =>
              p.role.Writer? ==>
                && Step(c, s, pid, ReadFile).Some?
                && Step(c, s, pid, ReadFile).value.procs[pid].pc ==
                     if s.file.Some? then Read(mine, s.file.value) else Leaving(mine, NoLogin)
            case Leaving(_, outcome) =>
              && Step(c, s, pid, Unlock).Some? && Step(c, s, pid, Unlock).value.lock.None?
              && Step(c, s, pid, Unlock).value.procs[pid].pc == Over(outcome)
            case _ => true
  {
  }

  // ---- what makes a run safe -------------------------------------------------------------

  datatype Clause = Timely | SameLock | NoRace | Nothing

  /** Timely: when a lock is condemned, nobody inside holds an overdue lock.
      SameLock: the lock condemned is the one still at the name, if any is.
      NoRace: nobody takes the lock while another process is about to break it. */
  ghost predicate Respects(s: State, pid: Pid, act: Act, clause: Clause) {
    match clause
    case Timely =>
      Condemns(s, pid, act) ==>
        forall q :: q in s.procs && Inside(s.procs[q]) ==> !Stale(s.now, s.procs[q].pc.mine)
    case SameLock =>
      Condemns(s, pid, act) ==> s.lock.None? || s.lock.value.id == s.procs[pid].pc.lock.id
    case NoRace =>
      act.Mkdir? && s.lock.None? ==> forall q :: q in s.procs && q != pid ==> !s.procs[q].pc.Breaking?
    case Nothing => true
  }

  // Every step respects every clause but the one waived.
  ghost predicate Orderly(c: Codec, s: State, run: seq<Label>, waived: Clause)
    decreases |run|
  {
    run == [] ||
    var next := Step(c, s, run[0].pid, run[0].act);
    && (forall clause :: clause != waived ==> Respects(s, run[0].pid, run[0].act, clause))
    && (next.Some? ==> Orderly(c, next.value, run[1..], waived))
  }

  lemma RespectfulIsSafe(s: State, pid: Pid, act: Act)
    requires Inv(s) && forall clause :: clause != Nothing ==> Respects(s, pid, act, clause)
    ensures Safe(s, pid, act)
  {
    assert Respects(s, pid, act, Timely) && Respects(s, pid, act, SameLock) && Respects(s, pid, act, NoRace);
    if Condemns(s, pid, act) {
      assert ProcOk(s, s.procs[pid]);
      forall q | q in s.procs ensures !Inside(s.procs[q]) { assert ProcOk(s, s.procs[q]); }
    }
  }

  /** Punctual holders, sightings of the lock that is still there, and no taking under a
      breaker make a run safe. */
  lemma {:induction false} OrderlyIsSafe(c: Codec, s: State, run: seq<Label>)
    requires Inv(s) && Orderly(c, s, run, Nothing)
    ensures SafeRun(c, s, run)
    decreases |run|
  {
    if run != [] {
      var next := Step(c, s, run[0].pid, run[0].act);
      RespectfulIsSafe(s, run[0].pid, run[0].act);
      if next.Some? {
        StepKeepsInv(c, s, run[0].pid, run[0].act);
        OrderlyIsSafe(c, next.value, run[1..]);
      }
    }
  }

  ghost predicate NeverCondemns(c: Codec, s: State, run: seq<Label>)
    decreases |run|
  {
    run == [] ||
    var next := Step(c, s, run[0].pid, run[0].act);
    !Condemns(s, run[0].pid, run[0].act) && (next.Some? ==> NeverCondemns(c, next.value, run[1..]))
  }

  /** So does that nobody finds the lock stale, however long holders take and whoever dies:
      the back-off alone never breaks the exclusion. */
  lemma {:induction false} UncondemnedIsSafe(c: Codec, s: State, run: seq<Label>)
    requires NeverCondemns(c, s, run) && forall q :: q in s.procs ==> !s.procs[q].pc.Breaking?
    ensures SafeRun(c, s, run)
    decreases |run|
  {
    if run != [] {
      var next := Step(c, s, run[0].pid, run[0].act);
      if next.Some? {
        UncondemnedIsSafe(c, next.value, run[1..]);
      }
    }
  }

  // ---- counterexamples: each clause is needed ---------------------------------------------

  const START := Initial(None, 0)
  const SNUG := Writer(Tokens("", ""), 0)

  // An execution from START that respects every clause but one.
  ghost predicate Reached(c: Codec, waived: Clause, run: seq<Label>, s: State) {
    Orderly(c, START, run, waived) && Exec(c, START, run) == Some(s)
  }

  lemma {:induction false} ExecThen(c: Codec, s: State, run: seq<Label>, l: Label, waived: Clause)
    requires Orderly(c, s, run, waived) && Exec(c, s, run).Some?
    requires forall clause :: clause != waived ==> Respects(Exec(c, s, run).value, l.pid, l.act, clause)
    ensures Orderly(c, s, run + [l], waived)
    ensures Exec(c, s, run + [l]) == Step(c, Exec(c, s, run).value, l.pid, l.act)
    decreases |run|
  {
    if run == [] {
      assert run + [l] == [l];
      assert [l][1..] == [];
    } else {
      assert (run + [l])[1..] == run[1..] + [l];
      ExecThen(c, Step(c, s, run[0].pid, run[0].act).value, run[1..], l, waived);
    }
  }

  lemma Do(c: Codec, waived: Clause, run: seq<Label>, s: State, pid: Pid, act: Act, pc: Pc)
    returns (run': seq<Label>, s': State)
    requires Reached(c, waived, run, s) && pid in s.procs && !act.Commit? && !act.Write? && !act.Spawn? && !act.Tick?
    requires forall clause :: clause != waived ==> Respects(s, pid, act, clause)
    requires NextPc(c, s, s.procs[pid], act) == Some(pc)
    ensures Reached(c, waived, run', s')
    ensures s'.procs == s.procs[pid := s.procs[pid].(pc := pc)]
    ensures s'.lock == NextLock(s, act) && s'.nextId == s.nextId + 1 && s'.now == s.now
  {
    ExecThen(c, START, run, Label(pid, act), waived);
    run', s' := run + [Label(pid, act)], Step(c, s, pid, act).value;
  }

  // A process that takes the lock at once.
  lemma Enter(c: Codec, waived: Clause, run: seq<Label>, s: State, pid: Pid) returns (run': seq<Label>, s': State)
    requires Reached(c, waived, run, s) && pid !in s.procs && s.lock.None?
    requires forall q :: q in s.procs ==> !s.procs[q].pc.Breaking?
    ensures Reached(c, waived, run', s') && s'.lock == Some(Lock(s.nextId, s.now))
    ensures s'.procs == s.procs[pid := Proc(SNUG, In(Lock(s.nextId, s.now)))]
    ensures s'.nextId == s.nextId + 1 && s'.now == s.now
  {
    ExecThen(c, START, run, Label(pid, Spawn(SNUG)), waived);
    run', s' := run + [Label(pid, Spawn(SNUG))], Step(c, s, pid, Spawn(SNUG)).value;
    run', s' := Do(c, waived, run', s', pid, Mkdir, In(Lock(s.nextId, s.now)));
  }

  // A process that meets the lock and looks at it.
  lemma Sight(c: Codec, waived: Clause, run: seq<Label>, s: State, pid: Pid) returns (run': seq<Label>, s': State)
    requires Reached(c, waived, run, s) && pid !in s.procs && s.lock.Some?
    ensures Reached(c, waived, run', s') && s'.lock == s.lock && s'.now == s.now
    ensures s'.procs == s.procs[pid := Proc(SNUG, Seen(0, s.lock.value))]
    ensures s.nextId <= s'.nextId
  {
    ExecThen(c, START, run, Label(pid, Spawn(SNUG)), waived);
    run', s' := run + [Label(pid, Spawn(SNUG))], Step(c, s, pid, Spawn(SNUG)).value;
    run', s' := Do(c, waived, run', s', pid, Mkdir, Refused(0));
    run', s' := Do(c, waived, run', s', pid, Stat, Seen(0, s.lock.value));
  }

  lemma Later(c: Codec, waived: Clause, run: seq<Label>, s: State) returns (run': seq<Label>, s': State)
    requires Reached(c, waived, run, s)
    ensures Reached(c, waived, run', s') && s' == s.(now := s.now + STALE + 1)
  {
    ExecThen(c, START, run, Label(0, Tick(STALE + 1)), waived);
    run', s' := run + [Label(0, Tick(STALE + 1))], Step(c, s, 0, Tick(STALE + 1)).value;
  }

  // A process about to break the lock does so and takes it.
  lemma Usurp(c: Codec, waived: Clause, run: seq<Label>, s: State, pid: Pid) returns (run': seq<Label>, s': State)
    requires Reached(c, waived, run, s) && pid in s.procs && s.procs[pid] == Proc(SNUG, Breaking(0))
    requires waived == NoRace || forall q :: q in s.procs && q != pid ==> !s.procs[q].pc.Breaking?
    ensures Reached(c, waived, run', s')
    ensures pid in s'.procs && s'.procs == s.procs[pid := s'.procs[pid]] && Inside(s'.procs[pid])
  {
    run', s' := Do(c, waived, run, s, pid, Break, Wait(1));
    run', s' := Do(c, waived, run', s', pid, Mkdir, In(Lock(s'.nextId, s'.now)));
  }

  /** A holder that outlives its lock's staleness is joined by the one who breaks it. */
  lemma OverdueHolderIsJoined(c: Codec) returns (run: seq<Label>, s: State)
    ensures Reached(c, Timely, run, s) && TwoInside(s)
  {
    run, s := Enter(c, Timely, [], START, 0);
    run, s := Sight(c, Timely, run, s, 1);
    run, s := Later(c, Timely, run, s);
    run, s := Do(c, Timely, run, s, 1, Judge, Breaking(0));
    run, s := Usurp(c, Timely, run, s, 1);
    assert Inside(s.procs[0]) && Inside(s.procs[1]);
  }

  /** Two processes that both find a dead owner's lock stale can both get inside: the
      slower one removes the lock the faster one has just taken. */
  lemma TwoBreakersBothEnter(c: Codec) returns (run: seq<Label>, s: State)
    ensures Reached(c, NoRace, run, s) && TwoInside(s)
  {
    run, s := Enter(c, NoRace, [], START, 0);
    run, s := Do(c, NoRace, run, s, 0, Die, Over(Died));
    run, s := Sight(c, NoRace, run, s, 1);
    run, s := Sight(c, NoRace, run, s, 2);
    run, s := Later(c, NoRace, run, s);
    run, s := Do(c, NoRace, run, s, 1, Judge, Breaking(0));
    run, s := Do(c, NoRace, run, s, 2, Judge, Breaking(0));
    run, s := Usurp(c, NoRace, run, s, 1);
    run, s := Usurp(c, NoRace, run, s, 2);
    assert Inside(s.procs[1]) && Inside(s.procs[2]);
  }

  // Process 1 has seen a lock that process 0 has since released in good time.
  lemma SightingOutlivesItsLock(c: Codec) returns (run: seq<Label>, s: State)
    ensures Reached(c, SameLock, run, s) && s.lock.None? && s.now == STALE + 1
    ensures s.procs == map[0 := Proc(SNUG, Over(Failed)), 1 := Proc(SNUG, Seen(0, Lock(0, 0)))]
  {
    run, s := Enter(c, SameLock, [], START, 0);
    run, s := Sight(c, SameLock, run, s, 1);
    run, s := Do(c, SameLock, run, s, 0, Fail, Leaving(Lock(0, 0), Failed));
    run, s := Do(c, SameLock, run, s, 0, Unlock, Over(Failed));
    run, s := Later(c, SameLock, run, s);
  }

  /** The Lstat and the clock are read apart: a process delayed between them condemns
      a lock that was released in time, and removes its successor, though every holder
      is punctual and nobody dies. */
  lemma SlowSightingBreaksAFreshLock(c: Codec) returns (run: seq<Label>, s: State)
    ensures Reached(c, SameLock, run, s) && TwoInside(s)
    ensures forall q :: q in s.procs ==> s.procs[q].pc != Over(Died)
  {
    run, s := SightingOutlivesItsLock(c);
    run, s := Enter(c, SameLock, run, s, 2);
    run, s := Do(c, SameLock, run, s, 1, Judge, Breaking(0));
    run, s := Usurp(c, SameLock, run, s, 1);
    assert Inside(s.procs[1]) && Inside(s.procs[2]);
  }
}
