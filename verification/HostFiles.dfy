/**
 The files snug replaces on the host: the credential file (replaceIn, WriteHost) and
 the sysctl drop-in (writeDropIn).

 A directory changes one system call at a time, and every state it passes through is
 kept, because a crash of the process leaves exactly one of them behind.
 */
module HostFiles {
  import opened Options
  import opened StorageLock

  type Name = string

  datatype Node = File(content: Content, links: nat) | Symlink | Special

  type Entries = map<Name, Node>

  datatype Error =
    | CreateFailed | WriteFailed | SyncFailed | CloseFailed | RenameFailed | ChmodFailed
    | IsSymlink | NotRegular | HardLinked | CannotExamine
    | NoHostLogin | Unreadable | NewerLoginThere | ShuttingDown | RenewFailed | LockHeldByAnother | MkdirFailed

  /** Which of the call's system calls fail, and how much of the content has reached the file
      at some moment of the write, where a failed one gives up. */
  datatype Faults = Faults(
    create: bool, chmod: bool, write: bool, written: nat, sync: bool, close: bool, rename: bool,
    remove: bool, examine: bool, read: bool, mkdir: bool)

  // The temporary's links do not matter; the rename gives the name a fresh single-linked file.
  function Whole(content: Content): Node { File(content, 1) }

  // A crash point is harmless when at most the temporary is there besides the whole old
  // directory, or the directory is the whole new one.
  predicate Harmless(before: Entries, after: Entries, tmp: Name, state: Entries) {
    state == before || state == after || (tmp in state && state == before[tmp := state[tmp]])
  }

  // A remark on Harmless: whatever the crash point, the target name holds its whole old
  // content or the whole new content, and no third name is touched.
  lemma CrashLeavesOldOrNew(before: Entries, name: Name, tmp: Name, node: Node, state: Entries, other: Name)
    requires Harmless(before, before[name := node], tmp, state) && tmp != name
    requires other != name && other != tmp
    ensures || (name in state && state[name] == node)
            || (name in state && name in before && state[name] == before[name])
            || (name !in state && name !in before)
    ensures (other in state <==> other in before) && (other in state ==> state[other] == before[other])
  {
  }

  // The first system call of the temp-and-rename sequence that fails.
  function PutError(leftover: bool, chmods: bool, syncs: bool, f: Faults): Option<Error> {
    if leftover || f.create then Some(CreateFailed)
    else if chmods && f.chmod then Some(ChmodFailed)
    else if f.write then Some(WriteFailed)
    else if syncs && f.sync then Some(SyncFailed)
    else if f.close then Some(CloseFailed)
    else if f.rename then Some(RenameFailed)
    else None
  }

  // ---- the sysctl drop-in ------------------------------------------------------

  function DropInTmp(name: Name): Name { "." + name + ".snug-tmp" }

  // Why writeDropIn refuses, if it does.
  function DropInOutcome(entries: Entries, name: Name, f: Faults): Option<Error> {
    if f.examine then Some(CannotExamine)
    else if name in entries && entries[name].Symlink? then Some(IsSymlink)
    else if name in entries && entries[name].Special? then Some(NotRegular)
    else if name in entries && entries[name].links > 1 then Some(HardLinked)
    else PutError(DropInTmp(name) in entries, false, false, f)
  }

  // A remark on the definition: a crash that leaves the temporary behind keeps every later
  // call from writing, as the temporary's name is fixed and O_EXCL refuses it.
  lemma LeftoverBlocksDropIn(before: Entries, name: Name, body: Content, crashed: Entries, f: Faults)
    requires Harmless(before, before[name := Whole(body)], DropInTmp(name), crashed)
    requires DropInTmp(name) in crashed
    ensures DropInOutcome(crashed, name, f).Some?
  {
  }

  // ---- the credential file -----------------------------------------------------

  const CREDENTIALS: Name := ".credentials.json"
  const LOCK: Name := ".storage-write.lock"
  const MAX_BYTES: nat := 0x10000

  function ReplaceTmp(name: Name, suffix: string): Name { name + ".tmp." + suffix }

  // What a host login rests on: a snapshot that saw the file, this login, these bytes.
  datatype Login = Login(snap: Option<Tokens>, login: nat, shuttingDown: bool)

  /** Why WriteHost leaves the file alone, if it does; its checks in the order it makes
      them once it holds the lock. */
  function WriteRefusal(c: Codec, entries: Entries, w: Login, f: Faults): Option<Error>
    requires w.snap.Some?
  {
    if CREDENTIALS !in entries then Some(NoHostLogin)
    else if f.examine then Some(CannotExamine)
    else match entries[CREDENTIALS]
      case Symlink => Some(IsSymlink)
      case Special => Some(NotRegular)
      case File(existing, _) =>
        if f.read || |existing| > MAX_BYTES then Some(Unreadable)
        else if c.tokens(existing) != w.snap.value then Some(NewerLoginThere)
        else if w.shuttingDown then Some(ShuttingDown)
        else if c.renew(existing, w.login).None? then Some(RenewFailed)
        else None
  }

  /** In this state the credential file is the whole old one, or the whole renewal of
      the old one. */
  predicate CredentialWhole(c: Codec, w: Login, before: Entries, state: Entries) {
    || (CREDENTIALS !in before && CREDENTIALS !in state)
    || (CREDENTIALS in before && CREDENTIALS in state &&
          (state[CREDENTIALS] == before[CREDENTIALS] ||
           (before[CREDENTIALS].File? &&
              var next := c.renew(before[CREDENTIALS].content, w.login);
              next.Some? && state[CREDENTIALS] == Whole(next.value))))
  }

  lemma HarmlessIsWhole(c: Codec, w: Login, before: Entries, tmp: Name, state: Entries)
    requires CREDENTIALS in before && before[CREDENTIALS].File? && tmp != CREDENTIALS
    requires c.renew(before[CREDENTIALS].content, w.login).Some?
    requires var next := c.renew(before[CREDENTIALS].content, w.login).value;
             Harmless(before, before[CREDENTIALS := Whole(next)], tmp, state)
    ensures CredentialWhole(c, w, before, state)
  {
  }

  // What takeStorageLock makes of a lock it finds at the name: overdue at some look, never
  // overdue however often it looks, or given up on because snug is shutting down.
  datatype Sight = Overdue | StaysFresh | Cancelled

  function LockRefusal(entries: Entries, sight: Sight, f: Faults): Option<Error> {
    if LOCK in entries && sight == StaysFresh then Some(LockHeldByAnother)
    else if LOCK in entries && sight == Cancelled then Some(ShuttingDown)
    else if f.mkdir then Some(MkdirFailed)
    else None
  }

  // Breaking an overdue lock removes it.
  function Freed(entries: Entries, sight: Sight): Entries {
    if sight == Overdue then entries - {LOCK} else entries
  }

  lemma FreedIs(entries: Entries, sight: Sight)
    ensures LOCK !in entries ==> Freed(entries, sight) == entries == entries - {LOCK}
    ensures sight == Overdue ==> Freed(entries, sight) == entries - {LOCK}
  {
  }

  predicate SameCredential(a: Entries, b: Entries) {
    (CREDENTIALS in a <==> CREDENTIALS in b) && (CREDENTIALS in a ==> a[CREDENTIALS] == b[CREDENTIALS])
  }

  // Only the credential file's own entry counts.
  lemma OtherNamesDoNotCount(c: Codec, w: Login, before: Entries, locked: Entries, state: Entries, after: Entries)
    requires SameCredential(before, locked) && SameCredential(state, after)
    requires CredentialWhole(c, w, locked, state)
    ensures CredentialWhole(c, w, before, after)
  {
  }

  class Dir {
    var entries: Entries
    ghost var past: set<Entries>  // every state the directory has been in

    constructor (entries: Entries)
      ensures this.entries == entries && past == {entries}
    {
      this.entries := entries;
      past := {entries};
    }

    method Set(name: Name, node: Node)
      modifies this
      ensures entries == old(entries)[name := node] && past == old(past) + {entries}
    {
      entries := entries[name := node];
      past := past + {entries};
    }

    method Remove(name: Name, fails: bool)
      modifies this
      ensures entries == (if fails then old(entries) else old(entries) - {name})
      ensures past == old(past) + {entries}
    {
      if !fails {
        entries := entries - {name};
      }
      past := past + {entries};
    }

    method Rename(from: Name, to: Name)
      requires from in entries && from != to
      modifies this
      ensures entries == (old(entries) - {from})[to := old(entries)[from]]
      ensures past == old(past) + {entries}
    {
      entries := (entries - {from})[to := entries[from]];
      past := past + {entries};
    }

    // Give up: close the temporary file this call made and remove it.
    method Abandon(tmp: Name, fails: bool, ghost before: Entries)
      requires tmp !in before && tmp in entries && entries == before[tmp := entries[tmp]]
      modifies this
      ensures entries == if fails then old(entries) else before
      ensures past == old(past) + {entries}
    {
      Remove(tmp, fails);
      assert before[tmp := old(entries)[tmp]] - {tmp} == before;
    }

    // The content arrives bit by bit.
    method Fill(tmp: Name, content: Content, f: Faults, ghost before: Entries) returns (wrote: bool)
      requires tmp !in before && tmp in entries && entries == before[tmp := entries[tmp]]
      modifies this
      ensures wrote <==> !f.write
      ensures tmp in entries && entries == before[tmp := entries[tmp]] && (wrote ==> entries[tmp] == Whole(content))
      ensures old(past) <= past && entries in past
      ensures forall st :: st in past - old(past) ==> tmp in st && st == before[tmp := st[tmp]]
    {
      Set(tmp, Whole(if f.written <= |content| then content[..f.written] else content));
      if !f.write {
        Set(tmp, Whole(content));
      }
      wrote := !f.write;
    }

    // The temporary file is made exclusively, filled, closed and renamed over name.  On
    // a failure it is removed again, but only if this call made it.
    method PutByRename(name: Name, tmp: Name, content: Content, chmods: bool, syncs: bool, f: Faults)
      returns (r: Option<Error>)
      requires tmp != name
      modifies this
      ensures r == PutError(tmp in old(entries), chmods, syncs, f)
      ensures r.None? <==>
                && tmp !in old(entries) && !f.create && (chmods ==> !f.chmod) && !f.write
                && (syncs ==> !f.sync) && !f.close && !f.rename
      ensures r.None? ==> entries == old(entries)[name := File(content, 1)]
      ensures r.Some? && (tmp in old(entries) || !f.remove) ==> entries == old(entries)
      ensures Harmless(old(entries), old(entries)[name := Whole(content)], tmp, entries)
      ensures old(past) <= past
      ensures forall st :: st in past - old(past) ==>
                Harmless(old(entries), old(entries)[name := Whole(content)], tmp, st)
    {
      ghost var before := entries;
      if tmp in entries || f.create {
        return Some(CreateFailed);
      }
      Set(tmp, Whole(""));
      if chmods && f.chmod {
        Abandon(tmp, f.remove, before);
        return Some(ChmodFailed);
      }
      var wrote := Fill(tmp, content, f, before);
      if !wrote {
        Abandon(tmp, f.remove, before);
        return Some(WriteFailed);
      }
      if syncs && f.sync {
        Abandon(tmp, f.remove, before);
        return Some(SyncFailed);
      }
      if f.close {
        Abandon(tmp, f.remove, before);
        return Some(CloseFailed);
      }
      if f.rename {
        Abandon(tmp, f.remove, before);
        return Some(RenameFailed);
      }
      Rename(tmp, name);
      assert (before[tmp := Whole(content)] - {tmp})[name := Whole(content)] == before[name := Whole(content)];
      return None;
    }

    method ReplaceIn(name: Name, suffix: string, content: Content, f: Faults) returns (r: Option<Error>)
      modifies this
      ensures r == PutError(ReplaceTmp(name, suffix) in old(entries), true, true, f)
      ensures r.None? <==>
                && name + ".tmp." + suffix !in old(entries)
                && !f.create && !f.chmod && !f.write && !f.sync && !f.close && !f.rename
      ensures r.None? ==> entries == old(entries)[name := File(content, 1)]
      ensures r.Some? && (ReplaceTmp(name, suffix) in old(entries) || !f.remove) ==> entries == old(entries)
      ensures Harmless(old(entries), old(entries)[name := Whole(content)], ReplaceTmp(name, suffix), entries)
      ensures old(past) <= past
      ensures forall st :: st in past - old(past) ==>
                Harmless(old(entries), old(entries)[name := Whole(content)], ReplaceTmp(name, suffix), st)
    {
      assert |ReplaceTmp(name, suffix)| > |name|;
      r := PutByRename(name, ReplaceTmp(name, suffix), content, true, true, f);
    }

    method WriteDropIn(name: Name, body: Content, f: Faults) returns (r: Option<Error>)
      modifies this
      ensures r == DropInOutcome(old(entries), name, f)
      ensures r.None? <==>
                && !f.examine && (name in old(entries) ==> old(entries)[name].File? && old(entries)[name].links <= 1)
                && "." + name + ".snug-tmp" !in old(entries)
                && !f.create && !f.write && !f.close && !f.rename
      ensures !f.examine && name in old(entries) && old(entries)[name].Symlink? ==> r == Some(IsSymlink)
      ensures !f.examine && name in old(entries) && old(entries)[name].Special? ==> r == Some(NotRegular)
      ensures !f.examine && name in old(entries) && old(entries)[name].File? && old(entries)[name].links > 1 ==>
                r == Some(HardLinked)
      ensures r.None? ==> entries == old(entries)[name := File(body, 1)]
      ensures r.Some? && (DropInTmp(name) in old(entries) || !f.remove) ==> entries == old(entries)
      ensures old(past) <= past
      ensures forall st :: st in past - old(past) ==>
                Harmless(old(entries), old(entries)[name := Whole(body)], DropInTmp(name), st)
    {
      if f.examine {
        return Some(CannotExamine);
      }
      if name in entries {
        match entries[name] {
          case Symlink => return Some(IsSymlink);
          case Special => return Some(NotRegular);
          case File(_, links) =>
            if links > 1 {
              return Some(HardLinked);
            }
        }
      }
      assert |DropInTmp(name)| > |name|;
      r := PutByRename(name, DropInTmp(name), body, false, false, f);
    }

    // The part of WriteHost that runs under the lock.
    method WriteLocked(c: Codec, w: Login, suffix: string, f: Faults) returns (r: Option<Error>)
      requires w.snap.Some?
      modifies this
      ensures var tmp := ReplaceTmp(CREDENTIALS, suffix);
              var refusal := WriteRefusal(c, old(entries), w, f);
              && r == (if refusal.Some? then refusal else PutError(tmp in old(entries), true, true, f))
              && (r.Some? && (tmp in old(entries) || !f.remove) ==> entries == old(entries))
              && (r.None? ==>
                    && old(entries)[CREDENTIALS].File?
                    && var next := c.renew(old(entries)[CREDENTIALS].content, w.login);
                       next.Some? && entries == old(entries)[CREDENTIALS := Whole(next.value)])
      ensures CredentialWhole(c, w, old(entries), entries)
      ensures old(past) <= past
      ensures forall st :: st in past - old(past) ==> CredentialWhole(c, w, old(entries), st)
    {
      if CREDENTIALS !in entries {
        return Some(NoHostLogin);
      }
      if f.examine {
        return Some(CannotExamine);
      }
      match entries[CREDENTIALS] {
        case Symlink => return Some(IsSymlink);
        case Special => return Some(NotRegular);
        case File(existing, _) =>
          if f.read || |existing| > MAX_BYTES {
            return Some(Unreadable);
          }
          if c.tokens(existing) != w.snap.value {
            return Some(NewerLoginThere);
          }
          if w.shuttingDown {
            return Some(ShuttingDown);
          }
          var next := c.renew(existing, w.login);
          if next.None? {
            return Some(RenewFailed);
          }
          ghost var before, seen := entries, past;
          r := ReplaceIn(CREDENTIALS, suffix, next.value, f);
          assert |ReplaceTmp(CREDENTIALS, suffix)| > |CREDENTIALS|;
          HarmlessIsWhole(c, w, before, ReplaceTmp(CREDENTIALS, suffix), entries);
          forall st | st in past - seen ensures CredentialWhole(c, w, before, st) {
            HarmlessIsWhole(c, w, before, ReplaceTmp(CREDENTIALS, suffix), st);
          }
      }
    }

    // The lock is broken if it is overdue, and taken.
    method TakeLock(sight: Sight, f: Faults) returns (r: Option<Error>)
      modifies this
      ensures r == LockRefusal(old(entries), sight, f)
      ensures entries == if r.None? then Freed(old(entries), sight)[LOCK := Special]
                         else if LOCK in old(entries) && sight != Overdue then old(entries)
                         else Freed(old(entries), sight)
      ensures r.None? ==> LOCK !in Freed(old(entries), sight)
      ensures old(past) <= past && forall st :: st in past - old(past) ==> SameCredential(old(entries), st)
    {
      ghost var before := entries;
      assert CREDENTIALS[1] != LOCK[1];
      if LOCK in entries {
        if sight == StaysFresh {
          return Some(LockHeldByAnother);
        }
        if sight == Cancelled {
          return Some(ShuttingDown);
        }
        Remove(LOCK, false);
      } else {
        assert before - {LOCK} == before;
      }
      if f.mkdir {
        return Some(MkdirFailed);
      }
      Set(LOCK, Special);
      return None;
    }

    /** WriteHost with the directory to itself: the file is rewritten exactly when the lock can
        be had and the file is a regular one that still holds the snapshot's tokens, and then
        to the renewal of its own content; at every crash point it holds its whole old or its
        whole renewed content.  On every other path, and with the lock released on all of
        them, the directory is as it was, but for an overdue lock, which is gone (unless even
        removing the temporary fails). */
    method WriteHost(c: Codec, w: Login, suffix: string, sight: Sight, f: Faults) returns (r: Option<Error>)
      modifies this
      ensures var had := CREDENTIALS in old(entries) && old(entries)[CREDENTIALS].File?;
              var existing := if had then old(entries)[CREDENTIALS].content else "";
              var reached := w.snap.Some? && (LOCK in old(entries) ==> sight == Overdue) && !f.mkdir;
              var readable := reached && had && !f.examine && !f.read && |existing| <= 0x10000;
              && (r.None? <==>
                    && readable && c.tokens(existing) == w.snap.value && !w.shuttingDown
                    && c.renew(existing, w.login).Some?
                    && CREDENTIALS + ".tmp." + suffix !in old(entries)
                    && !f.create && !f.chmod && !f.write && !f.sync && !f.close && !f.rename)
              && (r.None? ==>
                    var next := c.renew(existing, w.login).value;
                    entries == (old(entries) - {LOCK})[CREDENTIALS := File(next, 1)])
              && (r == Some(LockHeldByAnother) <==> w.snap.Some? && LOCK in old(entries) && sight == StaysFresh)
              && (r == Some(NoHostLogin) <==> w.snap.None? || (reached && CREDENTIALS !in old(entries)))
              && (r == Some(NewerLoginThere) <==> readable && c.tokens(existing) != w.snap.value)
              && (r == Some(ShuttingDown) <==>
                    || (w.snap.Some? && LOCK in old(entries) && sight == Cancelled)
                    || (readable && c.tokens(existing) == w.snap.value && w.shuttingDown))
              && (r == Some(RenewFailed) <==>
                    && readable && c.tokens(existing) == w.snap.value && !w.shuttingDown
                    && c.renew(existing, w.login).None?)
              && (reached && !f.examine && CREDENTIALS in old(entries) && old(entries)[CREDENTIALS].Symlink? ==>
                    r == Some(IsSymlink))
              && (reached && !f.examine && CREDENTIALS in old(entries) && old(entries)[CREDENTIALS].Special? ==>
                    r == Some(NotRegular))
      ensures r.Some? && !f.remove ==>
                entries == if w.snap.Some? && LOCK in old(entries) && sight == Overdue
                           then old(entries) - {LOCK} else old(entries)
      ensures forall st :: st in past - old(past) ==>
                if CREDENTIALS !in old(entries) then CREDENTIALS !in st
                else
                  && CREDENTIALS in st
                  && (|| st[CREDENTIALS] == old(entries)[CREDENTIALS]
                      || (old(entries)[CREDENTIALS].File? &&
                            var next := c.renew(old(entries)[CREDENTIALS].content, w.login);
                            next.Some? && st[CREDENTIALS] == File(next.value, 1)))
    {
      r := WriteIfLockable(c, w, suffix, sight, f);
      FreedIs(old(entries), sight);
    }

    // The same with its refusals named.
    method WriteIfLockable(c: Codec, w: Login, suffix: string, sight: Sight, f: Faults) returns (r: Option<Error>)
      modifies this
      ensures r == if w.snap.None? then Some(NoHostLogin)
                   else if LockRefusal(old(entries), sight, f).Some? then LockRefusal(old(entries), sight, f)
                   else if WriteRefusal(c, old(entries), w, f).Some? then WriteRefusal(c, old(entries), w, f)
                   else PutError(ReplaceTmp(CREDENTIALS, suffix) in old(entries), true, true, f)
      ensures r.Some? && !f.remove ==>
                entries == if w.snap.None? || (LOCK in old(entries) && sight != Overdue) then old(entries)
                           else Freed(old(entries), sight)
      ensures r.None? ==>
                && CREDENTIALS in old(entries) && old(entries)[CREDENTIALS].File?
                && var next := c.renew(old(entries)[CREDENTIALS].content, w.login);
                   next.Some? && entries == Freed(old(entries), sight)[CREDENTIALS := Whole(next.value)]
      ensures forall st :: st in past - old(past) ==> CredentialWhole(c, w, old(entries), st)
    {
      if w.snap.None? {
        return Some(NoHostLogin);
      }
      ghost var before, free := entries, Freed(entries, sight);
      r := TakeLock(sight, f);
      if r.Some? {
        return r;
      }
      assert CREDENTIALS[1] != LOCK[1];
      assert ReplaceTmp(CREDENTIALS, suffix)[1] != LOCK[1];
      ghost var taken := past;
      r := WriteAndLetGo(c, w, suffix, f, before, free);
      assert forall st :: st in past - old(past) ==> st in taken - old(past) || st in past - taken;
    }

    // What is done with the lock in hand, and its release.
    method WriteAndLetGo(c: Codec, w: Login, suffix: string, f: Faults, ghost before: Entries, ghost free: Entries)
      returns (r: Option<Error>)
      requires w.snap.Some? && LOCK !in free && entries == free[LOCK := Special]
      requires SameCredential(before, free) && CREDENTIALS != LOCK && ReplaceTmp(CREDENTIALS, suffix) != LOCK
      modifies this
      ensures r == if WriteRefusal(c, free, w, f).Some? then WriteRefusal(c, free, w, f)
                   else PutError(ReplaceTmp(CREDENTIALS, suffix) in free, true, true, f)
      ensures r.Some? && (ReplaceTmp(CREDENTIALS, suffix) in free || !f.remove) ==> entries == free
      ensures r.None? ==>
                && CREDENTIALS in free && free[CREDENTIALS].File?
                && var next := c.renew(free[CREDENTIALS].content, w.login);
                   next.Some? && entries == free[CREDENTIALS := Whole(next.value)]
      ensures old(past) <= past
      ensures forall st :: st in past - old(past) ==> CredentialWhole(c, w, before, st)
    {
      ghost var start, entered := entries, past;
      r := WriteLocked(c, w, suffix, f);
      ghost var locked, left := entries, past;
      Remove(LOCK, false);
      OtherNamesDoNotCount(c, w, before, start, locked, entries);
      forall st | st in left - entered ensures CredentialWhole(c, w, before, st) {
        OtherNamesDoNotCount(c, w, before, start, st, st);
      }
      assert free[LOCK := Special] - {LOCK} == free;
      assert r.None? ==> entries == free[CREDENTIALS := locked[CREDENTIALS]];
    }
  }
}
