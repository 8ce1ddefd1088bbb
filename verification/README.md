# snug: models and proofs

Dafny 4.11 models of the algorithms and protocols behind the `snug` command line, with proofs of
what they keep. `dafny verify dfyconfig.toml` checks everything; each file is one module.

## What is modelled

**Collecting engine stores** (`TargetLock`, `LockScan`, `StoreSafety`, `Robberies`, `Reclaimer`, `GcCommand`,
`Selection`). Sandbox runs hold a per-target lock file shared for life, sweepers unlink lock files nobody
holds, `snug engine gc` takes the lock exclusively, renames the image store and then the runroot aside,
unlocks and then deletes. `TargetLock` is a state machine over single system calls of any number of such
processes, which may die between any two steps; its `Act` also names two steps the program does not take,
used only in `Robberies` to show why it does not. `LockScan` says exactly when the scan that guards a store
without a known target can be believed, and `StoreSafety` what the protocol keeps of the stores. `GcCommand` is the command itself:
each of its calls is a step of the protocol taken from whatever state the other processes have brought
about, so every run of it is part of an execution that `StoreSafety` and `Reclaimer` speak of. `Selection`
is the union of selectors.

**The host credential file** (`StorageLock`, `Backoff`, `HostFiles`). A mkdir lock broken by age, its
back-off loop, a compare-and-swap on the file's two tokens, and the temporary-file-and-rename replacement
that `writeDropIn` also uses. The renewal of a credential and the reading of its tokens are parameters
(`Codec`). `HostFiles.Dir` keeps the states the directory passes through, a half-written
temporary among them, since a crash of the process leaves one of them
(durability after a power failure is not modelled; `writeDropIn` does not sync before its rename).

**The JSON dry run** (`Utf8`, `JsonText`, `Fidelity`). Rewriting raw hazard runes of a finished document as
`\u` escapes: a document is read as structural characters and string literals of UTF-16 code units
(section 7 of RFC 8259), so whatever any parser computes from that reading is kept. All the rewriting asks of
the hazard set is that it names no printable ASCII, which the screens' own set does not
(`JsonText.ForgingIsSane`). `Fidelity` is the
sibling-bytes layer for values that are not valid UTF-8 (section 3 of RFC 3629).

**Login bridge and relays** (`LoginLines`, `Relays`). Line framing over a fixed buffer; a chain of closures
that splits one batch of sockets; the bridge that spends its share.

**Id maps** (`IdMap`), **mounts behind the dry-run headline** (`Mounts`), **include graphs** (`Includes`),
**keygrips** (`Keygrips`), **greedy wrapping** (`Wrap`), **the sysctl floor** (`Sysctl`). `Strings` holds
the parts of Go's `strings` and `strconv` that the others call, `Options` the two result shapes.

Answers of the host (which system calls fail, what the kernel refuses, the clock, the order a Go map is
visited in, what other processes do) are parameters or nondeterministic choices throughout.

## Where the code does less than it seems to

- The storage lock excludes exactly when no lock is condemned with a process inside and none is taken while
  another process is about to break one (`StorageLock.ExclusionIff`): a run that does either is two steps of
  one process from having two inside. Punctual holders alone are not enough: two breakers of a dead owner's
  lock, or a delay between Lstat and the clock, also do it, and executions are given. A run in which nobody
  judges the lock stale is always safe.
- `anyRunLive` is described as failing closed, but it passes over a lock file it cannot open
  (`enginegc.go:854-862`), and its answer is not kept true by any lock. What its guarantee needs is stated
  exactly (`LockScan.ScanIff`): the scan can at some point come, undisturbed, to a rename while a run on the
  target is live, if and only if it passes over the lock file of a run that holds it, or a run takes its lock
  where the scan will not look any more. Executions of both kinds are given.
- `mountedAt` does not see a mount at `/`, which profile validation refuses (`internal/policy/validate.go:152`);
  the exact condition is proved.
- For the path `/` the prefix the code looks for is `//`, so the annotation never carries the WRITABLE clause
  (`Mounts.RootHasNoClause`); the headline's theorems are about every other path.
- Devices, symlinks and generated files lie over binds too, but `mountedAt` looks at binds and tmpfs mounts only.
  So "writable" can be said of a path where such a mount hides the bind; when it is said wrongly is proved
  exactly (`Mounts.HeadlineInFull`), and "read-only" is never said wrongly.
- The annotation "not mounted" carries no clause about writable binds strictly below the path; the exact set
  it is silent about is proved, and one arrangement is given.
- `withoutID` and `mergeIntervals` add in uint64. A run that reached past the last 64-bit id would keep ids it
  should lose; the condition for one run is exact. This is a limit of the arithmetic only: every map the
  kernel writes is proved to stay below it.
- A temporary drop-in left by a crash makes every later `fix sysctl -w` refuse to write
  (`HostFiles.LeftoverBlocksDropIn`), because its name is fixed and it is opened exclusively.
- `takeStorageLock` runs for ever exactly when its first ten iterations meet a lock and every later one a stale
  lock (`Backoff.NeverReturnsIff`): breaking a stale lock skips the count of tries.
- `snug engine gc` words a store key in its error text as two shapes; the code accepts a third, of sixteen
  hexadecimal digits, and the model follows the code.

## Model

| member | source | states |
|---|---|---|
| TargetLock.StepKeepsLockInv | internal/cli/targetlock.go:286-340 | every step of every process keeps the lock invariant: whoever passed the link check holds the inode at the name, and two holders of one inode are both sharers |
| TargetLock.FlockIff | internal/cli/targetlock.go:286-340 | a run's flock succeeds if and only if nobody but other runs holds the file, anyone else's if and only if nobody does; a run or a reclaimer that misses tries again, four times in all |
| TargetLock.LinkCheckIff | internal/cli/targetlock.go:320-337 | the link check succeeds if and only if the target's name still leads to the file |
| TargetLock.OpenIff | internal/cli/targetlock.go:286-291 | runs and reclaimers open the file at the name, made if it is not there; sweepers and probes make none |
| TargetLock.RunJoins | internal/cli/targetlock.go:189-220 | a run starts beside any number of others: its four steps make it live whenever nobody but runs holds its target's file |
| TargetLock.UseStoreIff | internal/cli/enginegc.go:642-662 | a live run's engine opens each part once: the directory under its key if there is one, and a new one there otherwise |
| TargetLock.TwoRunsShare | internal/cli/targetlock.go:260-300 | an execution of the code ends with two live runs on one target |
| TargetLock.NoLiveRunUnderReclaim | internal/cli/enginegc.go:617-712 | why "hold" is safe: in every reachable state, from the collector's link check to its unlock, no run on its target is live |
| TargetLock.SweepUnlinksOnlyItsOwnInode | internal/cli/orphansweep.go:190-254 | when a sweeper is about to remove a name, the name still points at the inode it holds exclusively, and nobody else holds it |
| TargetLock.LiveRunIsVisible | internal/cli/targetlock.go:260-340 | a live run's lock is always found by whoever opens its target's name, and refused to whoever wants it exclusively |
| StoreSafety.PurgeTouchesNoStore | internal/engine/gc.go:244-265 | in every execution, what a collector is about to delete is under no key, so no store created after the unlock is touched, whether or not its run still lives |
| StoreSafety.PurgeSparesLiveRuns | internal/engine/gc.go:244-265 | nor is it a generation a live run works in |
| StoreSafety.GenerationsStay | internal/engine/gc.go:244-265 | nothing is lost on the way: a generation stays in the store or aside until someone deletes that very one |
| StoreSafety.DeletedIsGone | internal/engine/gc.go:448-460 | and then it is in neither |
| StoreSafety.RenameMovesAside | internal/engine/gc.go:244-275 | a rename takes one directory from its key to aside and no other, and the process knows which |
| StoreSafety.LeftoverIsRetried | internal/cli/enginegc.go:275-286 | a leftover can be retried at the start of every reclaim or scan, and only then |
| LockScan.BlindsIff | internal/cli/enginegc.go:853-880 | a step leaves the scan right about a target exactly when it is neither the scanner passing over the lock file of a run that holds it nor a run taking its lock where the scan will not look any more, and exactly when the scanner cannot then come, undisturbed, to rename while a run on the target is live |
| LockScan.ScanIff | internal/cli/enginegc.go:824-881 | over whole executions: the scan is never doomed to mislead about a target if and only if no step blinds it to the target, and then no run on it is live whenever the scanner can rename |
| LockScan.UndisturbedIsSighted | internal/cli/enginegc.go:824-881 | it is enough that no run on the target takes its lock while the scan is open and the target's lock file is not passed over |
| LockScan.ClearScanMeansNoLiveRun | internal/cli/enginegc.go:824-881 | a scan that probed every listed name and found nothing is right about every run on a target it was not blinded to, and stays right until its last rename |
| StoreSafety.RenameFindsNoLiveRun | internal/cli/enginegc.go:531-551 | at every rename, of the image store or the runroot, no run on the target is live: under the lock unconditionally, after a scan unless some step blinded it to that target |
| StoreSafety.StepKeepsTarget | internal/cli/enginegc.go:461-569 | every step keeps, for one target: live runs find their own generations under their key, and open scans after that target's store still cover its runs |
| StoreSafety.StoreStaysUnderLiveRun | internal/cli/enginegc.go:461-569 | a live run still finds the very generations its engine opened, and nobody has them aside, if no scan after its own target's store was blinded to it |
| StoreSafety.AttributedStoreStays | internal/cli/enginegc.go:642-662 | a store no collector scans for stays under its live run in every execution, whatever scans after other stores go on |
| Robberies.ProbeThenRenameRobs | internal/cli/enginegc.go:617-640 | renaming after a mere probe would take the store from under a live run; an execution is given |
| Robberies.SkippingTheLinkCheckRobs | internal/cli/targetlock.go:273-285 | so would a run that skipped the link check after flock |
| Robberies.ScanMissesALateRun | internal/cli/enginegc.go:824-881 | a run that locks between a scan's listing and its rename loses its store, every step being the program's |
| Robberies.UnopenableLockHidesARun | internal/cli/enginegc.go:854-862 | so does a live run whose lock file the scan cannot open, though no run locks during the scan |
| Reclaimer.LockReleasedOnce | internal/cli/enginegc.go:461-569 | in every execution a reclaimer gets at most four flocks, passes the link check on at most one, and has released as many as it got but for one it may still hold |
| Reclaimer.PurgeFollowsUnlock | internal/cli/enginegc.go:531-569 | in every execution its deletions follow its unlock, with nothing else between, and that follows the renames it made under the checked lock |
| Reclaimer.RenamesAreSafe | internal/cli/enginegc.go:531-551 | the renames of one process in a whole execution each find no live run on the target |
| GcCommand.Collector.Take | internal/cli/enginegc.go:461-569 | a system call of the command is one step of the protocol, from whatever state the others' steps have led to |
| GcCommand.Collector.OpenAndHold | internal/cli/targetlock.go:286-340 | the lock is had at the first attempt neither contended nor swept away, the steps of the attempts before it being those of misses; it is busy exactly when four attempts missed and the last met a conflicting lock; otherwise four missed and the last was swept away, or a call failed at the attempt after the misses; nothing is held then |
| GcCommand.Collector.ProbeTarget | internal/cli/enginegc.go:713-753 | no file is not live, a lock met is, and after an unheld lock is let go the record alone decides; it creates nothing and holds nothing afterwards |
| GcCommand.Collector.AnyRunLive | internal/cli/enginegc.go:829-881 | the scan ends at the first lock in conflict or unjudgeable; a negative answer leaves none of the directory's listing; every lock taken is released, and only unopenable files are passed over |
| GcCommand.Collector.AskLiveness | internal/cli/enginegc.go:474-502 | holding for a real removal, probing only for a dry run, scanning for an unattributed store; a negative answer comes with the lock held exactly in the first case |
| GcCommand.Collector.ReclaimStore | internal/cli/enginegc.go:531-569 | image store and runroot renamed, then the unlock, then the deletion of exactly the generations the renames found |
| GcCommand.Collector.ProcessCandidate | internal/cli/enginegc.go:461-569 | amid any steps of the others: the image store is renamed exactly when the store is idle, readable, owned by the user, no call fails and the run is no dry run, the runroot exactly when its directory can be had too, and exactly what the renames found is deleted; nothing is held at the end; a dry run's answer is told by its own steps and the record; no run on the target is live at either rename |
| Selection.EngineGCSelect | internal/cli/enginegc.go:395-454 | processed are exactly the stores some selector picks, each once and in key order; a failed store outranks an unknown key in the exit code |
| Selection.LeftoverIsRecognised | internal/engine/gc.go:178-226 | a store renamed aside is listed as a leftover of its own key, never as a store |
| Selection.KeyShapes | internal/engine/gc.go:72-109 | the three generations of store names are recognised, and no other number of hexadecimal digits |
| StorageLock.SafeIff | internal/cli/claudelogin.go:398-421 | a step from a state that keeps exclusion keeps it exactly when it condemns no lock with a process inside and takes none under a breaker, and exactly when no process can then put two inside by breaking and taking |
| StorageLock.ExclusionIff | internal/cli/claudelogin.go:398-421 | a whole run is never two steps from two processes between mkdir and unlock if and only if all its steps are such |
| StorageLock.AtMostOneInside | internal/cli/claudelogin.go:398-421 | over every such run at most one process is inside, and the lock at the name is its own |
| StorageLock.OrderlyIsSafe | internal/cli/claudelogin.go:398-421 | punctual holders, sightings of the lock that is still there, and no taking under a breaker are sufficient |
| StorageLock.UncondemnedIsSafe | internal/cli/claudelogin.go:404-421 | so is that nobody finds the lock stale, whatever the timing and whoever dies |
| StorageLock.HistoryIsAChain | internal/cli/claudelogin.go:330-384 | over every such run the file's history is a chain; each renewal takes a file holding the snapshot's tokens to the renewal of exactly that file; a writer that lost or failed edited nothing |
| StorageLock.CommitIff | internal/cli/claudelogin.go:370-384 | in a safe run a writer that commits renews if and only if the file holds its snapshot's tokens and renews, the file and the history then being exactly that renewal; it reports a newer login if and only if the tokens differ |
| StorageLock.RenewedMeansWritten | internal/cli/claudelogin.go:370-384 | in any run, whoever reports a renewal has one of its own in the history |
| StorageLock.TurnOfTheLoop | internal/cli/claudelogin.go:398-421 | mkdir takes the lock if and only if there is none; one met is broken if and only if it is more than fifteen seconds old by the clock read after the look; a try costs one of eleven unless it broke a lock |
| StorageLock.OverdueHolderIsJoined | internal/cli/claudelogin.go:407-411 | without punctual holders two processes get inside |
| StorageLock.TwoBreakersBothEnter | internal/cli/claudelogin.go:407-411 | two processes that both found a dead owner's lock stale both get inside |
| StorageLock.SlowSightingBreaksAFreshLock | internal/cli/claudelogin.go:407-411 | a delay between Lstat and the clock breaks a fresh lock though every holder is punctual and nobody dies |
| Backoff.TakeStorageLock | internal/cli/claudelogin.go:398-421 | returns at the first iteration that ends, after at most eleven attempts plus one for each stale sighting and at most 7.5 s of sleep |
| Backoff.SleptWithinBudget | internal/cli/claudelogin.go:414-427 | whatever the answers, the sleeping of any prefix is within 7.5 s |
| Backoff.ShiftFits | internal/cli/claudelogin.go:423-427 | at every try the loop makes the shifted delay fits 64 bits, and at 37 it would not |
| HostFiles.Dir.PutByRename | internal/cli/claudelogin.go:189-227 | every state passed through is the old directory, the old one with the temporary holding any part of the content, or the new one, so the name holds its whole old or its whole new content; on an error with removal succeeding the directory is as before; a temporary not its own is never removed |
| HostFiles.Dir.ReplaceIn | internal/cli/claudelogin.go:189-227 | the same for the credential file, with each failing system call's own error |
| HostFiles.Dir.WriteDropIn | internal/cli/fixsysctl.go:326-367 | the same for the sysctl drop-in, which moreover is never written over a symlink, a special file or a hard link |
| HostFiles.Dir.TakeLock | internal/cli/claudelogin.go:398-421 | an overdue lock is broken and taken; a fresh one is refused, changing nothing; the credential file is untouched throughout |
| HostFiles.Dir.WriteHost | internal/cli/claudelogin.go:330-384 | the file is rewritten if and only if there was a snapshot, the lock is absent or overdue, no call fails, the file is regular, within the cap and still holds the snapshot's tokens, snug is not shutting down, the file renews and no leftover is in the way; then to the renewal of its own content; each refusal by its own cause; otherwise the directory is as it was but for a broken lock; at every crash point the file holds its whole old or its whole renewed content |
| JsonText.EscapedReadsTheSame | internal/cli/dryrunjson.go:292-314 | every document reads as the very same tokens after the rewriting, lone surrogate escapes and non-BMP runes included |
| JsonText.EscapedIsClean | internal/cli/dryrunjson.go:292-314 | no rune of the result is a raw hazard |
| JsonText.CleanIsFixed | internal/cli/dryrunjson.go:292-314 | the rewriting changes nothing where there is nothing to change, so it is idempotent |
| JsonText.GoReadsTheUnits | internal/cli/dryrunjson.go:266-314 | a decoder that looks ahead for surrogate pairs instead of reading code units reads the same runes |
| JsonText.DocumentKept | internal/cli/dryrunjson.go:292-314 | all of this for the bytes of a document |
| JsonText.EscapesOfTheGrammar | internal/cli/dryrunjson.go:292-314 | the reading is that of section 7 of RFC 8259 at its eight short escapes, hex digits of either case and surrogate pairs |
| JsonText.EscapeRawForgingRunes | internal/cli/dryrunjson.go:294-314 | the loop computes that rewriting; on valid UTF-8 its early return agrees with the loop |
| JsonText.ContainsRaw | internal/cli/dryrunjson.go:294-297 | the early test finds a raw hazard exactly when the decoded text has one |
| Utf8.DecodeEncode | internal/cli/dryrunjson.go:294-314 | encoding then decoding runes gives them back |
| Utf8.RoundTripIffValid | internal/cli/dryrunjson.go:164-205 | a byte string survives decoding and encoding exactly when it is valid UTF-8 |
| Fidelity.LossyEncoder.Text | internal/cli/dryrunjson.go:199-205 | the sibling is there exactly for an invalid value, and lossy is true exactly when some value so far was invalid |
| Fidelity.LossyEncoder.Texts | internal/cli/dryrunjson.go:212-231 | the sibling list is index-aligned, and absent exactly when every value is valid |
| Fidelity.TextsDetermineTheValues | internal/cli/dryrunjson.go:207-231 | the two lists determine the values exactly; the strings alone do so exactly when the siblings are absent |
| Fidelity.MarshalBytes | internal/cli/dryrunjson.go:323-338 | the marshalled array is null or the decimal numerals in order |
| Fidelity.MarshalledBytesReadBack | internal/cli/dryrunjson.go:323-338 | the numerals read back as the same bytes; null reads back as no list |
| LoginLines.ReadLoginLines | internal/cli/loginbridge.go:266-306 | for every byte stream the buffered reader gives exactly the reference's events |
| LoginLines.EventsAreTheSegments | internal/cli/loginbridge.go:266-306 | those events are the newline-terminated segments in order, each long one a single refusal, and one more for a long unfinished tail |
| LoginLines.JudgedAt | internal/cli/loginbridge.go:24-29 | each segment's own event: passed on whole if it has at most 4096 bytes |
| LoginLines.WrittenLinesAreRead | internal/cli/loginbridge.go:266-306 | whatever newline-free lines are written are the segments read |
| LoginLines.Report | internal/cli/loginbridge.go:270-284 | however many refusals, at most six messages: the first five and one notice |
| Relays.Deliver | internal/cli/relays.go:15-29 | calling the closure does what the delivery function says, closing in a loop |
| Relays.BatchIsPartitioned | internal/cli/relays.go:9-29 | consumer i gets the i-th consecutive slice; at the first refusal every later socket is closed once, in order, nobody later is called, and that error is returned |
| Relays.RunOptions.AddRelaySockets | internal/cli/relays.go:15-29 | registering keeps the count and the closure those of all consumers so far |
| Relays.LoginBridge.Dial | internal/cli/loginbridge.go:219-234 | spends the next socket whether or not the connection works, and none when none is left |
| Relays.LoginBridge.Close | internal/cli/loginbridge.go:247-262 | afterwards every socket ever handed over was spent or closed, once |
| Relays.LoginBridge.SetRelay | internal/cli/loginbridge.go:237-242 | the bridge owns exactly the batch it was handed last; only what was left of an earlier one is lost |
| Relays.LoginBridge.Left | internal/cli/loginbridge.go:210-214 | what is left is what was handed over less what was spent or closed |
| IdMap.ParseIDMapNS | internal/cli/doctorsubuid.go:178-193 | the parsed runs are those of the well-formed lines in order |
| IdMap.RenderedLineParses | internal/cli/doctorsubuid.go:178-193 | whatever the kernel prints for a line is read back, and an empty run is dropped |
| IdMap.LineIsRunIff | internal/cli/doctorsubuid.go:178-193 | any line is a run exactly when it has three columns, the first and last 64-bit numbers and the last not zero |
| IdMap.MergeIntervals | internal/cli/doctorsubuid.go:197-214 | sorting in place and merging gives ascending maximal runs that denote the same ids |
| IdMap.CanonicalIsUnique | internal/cli/doctorsubuid.go:195-214 | that form is determined by the ids alone |
| IdMap.WithoutID | internal/cli/doctorsubuid.go:221-236 | the loop punches the id out of each run |
| IdMap.PunchIsExactIff | internal/cli/doctorsubuid.go:221-236 | one run loses exactly the id, if and only if it ends below 2^64 or does not hold the id |
| IdMap.PunchedIsExact | internal/cli/doctorsubuid.go:221-236 | punching keeps the canonical form and removes exactly the id |
| IdMap.Choose | internal/cli/doctorsubuid.go:155-170 | the two loops find the conventional range, else the run with the highest start |
| IdMap.ChosenIsRight | internal/cli/doctorsubuid.go:149-171 | on the canonical form that choice is the right answer |
| IdMap.SubuidSuggestion | internal/cli/doctorsubuid.go:149-171 | 100000:65536 exactly when all those ids are free; else the highest maximal free run cut to 65536; nothing exactly when no id is free |
| IdMap.KernelMapFits | internal/cli/doctorsubuid.go:149-193 | every map with 32-bit extents parses to exactly its runs, all of which end below 2^64, so the suggestion is right for it |
| IdMap.WrappedRunIsKept | internal/cli/doctorsubuid.go:221-236 | a limit of the arithmetic: a run past the last 64-bit id keeps the ids punched out of it; an instance no kernel writes |
| Mounts.MountedAt | internal/cli/dryrun.go:1147-1163 | in whatever order the map is visited, the answer is the deepest covering bind or tmpfs |
| Mounts.DeepestMeans | internal/cli/dryrun.go:1147-1163 | that answer is a bind or a tmpfs at the path or, a slash further, at the front of it, and none is longer |
| Mounts.DeepestIsUnique | internal/cli/dryrun.go:1147-1163 | so it does not depend on the order |
| Mounts.AncestorsAreMadeFirst | internal/policy/types.go:661-691 | the emission order puts every path strictly after what is above it, the root included |
| Mounts.MountedAtIsEffective | internal/cli/dryrun.go:1147-1163 | the answer is the last covering mount made, if and only if one was found or nothing decides at the root |
| Mounts.WritableBelow | internal/cli/dryrun.go:1210-1234 | the loop collects the clause's paths |
| Mounts.InsideNames | internal/cli/dryrun.go:1210-1234 | the clause names exactly the writable binds strictly inside |
| Mounts.PathAnnotation | internal/cli/dryrun.go:1178-1189 | the annotation is that of the deepest covering mount |
| Mounts.HeadlineIsExact | internal/cli/dryrun.go:1178-1244 | for a covered path other than `/`, the effective bind-or-tmpfs mount at it or somewhere below it is a writable bind if and only if the annotation says writable or has the clause |
| Mounts.HeadlineInFull | internal/cli/dryrun.go:1178-1244 | with mounts of every kind in their place, a write there can persist if and only if the clause is there, or "writable" is said and nothing lies over that mount at the path |
| Mounts.NotMountedIsSilent | internal/cli/dryrun.go:1178-1182 | for an uncovered path the bare annotation is silent about exactly the writable binds strictly below |
| Mounts.NotMountedMayHideAWritableBind | internal/cli/dryrun.go:1178-1182 | such an arrangement exists |
| Mounts.CoverageOf | internal/cli/dryrun.go:3371-3388 | full exactly when some bind is at or above the path; else the number of binds strictly beneath |
| Includes.Walk | internal/cli/badfiles.go:43-57 | ends on every graph; finds a missing name the selection reaches, or visits exactly what is reachable |
| Includes.RefuseBadSelection | internal/cli/badfiles.go:36-59 | with a bad file about, let through exactly when all bad files' names are known and everything reachable is registered |
| Includes.RefuseNamelessBadFiles | internal/cli/badfiles.go:64-89 | counts the files whose names are not known |
| Includes.NamelessIff | internal/cli/badfiles.go:64-89 | that count is zero exactly when every name is known |
| Includes.Printer.PrintTree | internal/cli/config.go:817-854 | ends on cycles; the subtree's profiles are expanded, each accounts for one line per include, and nothing unreachable is expanded |
| Includes.ShowTree | internal/cli/config.go:817-854 | from a registered root: expanded are exactly the registered reachable profiles, each once; the lines are one plus the sum of their include lists, and are the graph unfolded, each expanded profile with its includes below it, one deeper and in their order |
| Keygrips.ReadRecords | internal/cli/gpgidentity.go:91-135 | the flag machine equals the definition that looks back over the records |
| Keygrips.RecordReads | internal/cli/gpgidentity.go:102-118 | what a line of columns means: its kind from the first, validity and capabilities of an ssb from the second and the twelfth, a value from the tenth |
| Keygrips.ListingIsRead | internal/cli/gpgidentity.go:91-135 | for key blocks written out as text, the asked key is found if and only if some block's primary fingerprint is the one asked for, and what is collected is what that block's fit subkeys give, upper-cased and in order |
| Keygrips.ParseKeygrips | internal/cli/gpgidentity.go:91-135 | both readings, of any text by looking back over its lines and of written blocks by the blocks |
| Keygrips.OnlySubkeysArePinned | internal/cli/gpgidentity.go:20-27 | on such a text every grip collected stands under a fit subkey of the asked key |
| Keygrips.PinnedGripsAreSubkeys | internal/cli/gpgidentity.go:91-135 | a grip is collected for a use exactly when a grp line of the asked key gives it whose nearest sec or ssb is a subkey fit for that use |
| Keygrips.PrimaryIsNeverPinned | internal/cli/gpgidentity.go:20-27 | a grip that occurs only under a primary is pinned for nothing |
| Keygrips.BlocksAddUp | internal/cli/gpgidentity.go:85-135 | appending a key block adds exactly what the block gives alone |
| Keygrips.OtherKeyGivesNothing | internal/cli/gpgidentity.go:85-89 | a block of another key gives nothing |
| Keygrips.GpgPins | internal/cli/gpgidentity.go:141-170 | pins exactly the grips of the scopes asked for, and refuses a scope the key has no subkey for |
| Wrap.GreedyBreaks | internal/cli/config.go:1010-1031 | greedy lines hold the words in order, each within its room or a single over-long word, in bytes or in characters |
| Wrap.GreedyIsBest | internal/cli/config.go:1010-1031 | no breaking into lines that fit has fewer lines, also with a different room on the first line |
| Wrap.BytesAreUtf8 | internal/cli/config.go:1010-1031 | a length in bytes is that of the UTF-8 encoding |
| Wrap.FillIsGreedy | internal/cli/dryrun.go:744-770 | the fill loop's remaining output is the greedy breaking of its remaining words |
| Wrap.WrapWords | internal/cli/config.go:1010-1031 | the loop prints the greedy breaking, lengths being counted in bytes |
| Wrap.WrapMark | internal/cli/dryrun.go:744-770 | so does this one, in characters, with narrower continuation lines |
| Wrap.MarkLinesFit | internal/cli/dryrun.go:729-770 | no line starts left of column 21, every line fits or is one word, and the words come out whole and in order |
| Wrap.WrapGraftField | internal/cli/dryrun.go:2654-2673 | the greedy breaking of the labelled words, or the bare label |
| Sysctl.ReadHostSysctls | internal/cli/hostsysctl.go:173-195 | one reading per table row, in order, each the answer of that knob's file |
| Sysctl.WrittenReads | internal/cli/hostsysctl.go:173-214 | what the fix writes to a knob is read back, trimmed and converted, as the same number |
| Sysctl.SysctlDropInLines | internal/cli/fixsysctl.go:96-105 | the loop builds the settings |
| Sysctl.DropInCovers | internal/cli/fixsysctl.go:96-105 | a setting is there exactly for a readable knob, at the larger of want and value; none for a fault |
| Sysctl.BodyReadsBack | internal/cli/fixsysctl.go:114-125 | the file's text reads back as exactly its settings, the header being comments |
| Sysctl.BodySays | internal/cli/fixsysctl.go:96-125 | a reader finds in the file each readable knob at the larger of want and value, and nothing else |
| Sysctl.BootIsAFloor | internal/cli/fixsysctl.go:81-105 | a boot applying only this file leaves every readable knob at the larger of want and its value at the time, and every faulted knob alone |
| Sysctl.NeverLowered | internal/cli/fixsysctl.go:213-223 | whatever the kernel refuses, no knob is lowered, no faulted knob is touched, and a knob that takes its write is strict enough |
| Sysctl.AllStrict | internal/cli/fixsysctl.go:213-223 | when nothing is refused, every readable knob is strict enough on re-reading |
| Sysctl.Host.ApplyWeak | internal/cli/fixsysctl.go:213-223 | the loop's kernel is the raised one, and it reports failure exactly when a weak knob was refused |
| Sysctl.Host.ApplySysctlFix | internal/cli/fixsysctl.go:170-266 | the exact new kernel, directory and exit code on every branch; without root or in a container nothing changes |
| Sysctl.Host.FixSysctl | internal/cli/fixsysctl.go:127-168 | a whole run: without root 69, in a container 0, and nothing changed; else exactly the weak knobs the kernel takes are set to their want, and where no file operation fails the file holds the body afterwards and the exit is 0 unless a weak knob was refused |
| Sysctl.KernelAfterwards | internal/cli/fixsysctl.go:213-223 | the kernel after the fix, knob by knob |
| Sysctl.SameFileAfterwards | internal/cli/fixsysctl.go:81-105 | whatever the kernel took or refused, re-reading gives the same settings |
| Sysctl.SecondRunIsIdle | internal/cli/fixsysctl.go:195-256 | after a run whose writes all worked, a second run raises nothing and writes no file |

## Left out

- SubuidSuggestion: the right answer is stated for maps whose runs all end below 2^64, where the uint64 sums are
  exact and which covers every map the kernel writes; past that the answer can still be right by accident, and
  only the exact condition for one run (`PunchIsExactIff`) is given.
- WriteHost: the method has the directory to itself (interleavings are `StorageLock`'s and the loop's timing is
  `Backoff`'s), and the removal of a lock directory is assumed to succeed.
- ProcessCandidate: the sizes and notes of what is printed are not part of this model, nor is a deletion that stops
  half way, which leaves the directory aside for a later run.
- WrapWords: a string is a sequence of Unicode characters, so bytes that are not valid UTF-8, which Go's `RuneCountInString`
  counts one by one, are not part of this model; the same holds for `WrapMark` and `WrapGraftField`.
- MergeIntervals: Go's unstable sort is stood for by an insertion sort; the merge uses only that the result is a permutation in start order.
- Dial: the mutex makes each call atomic, so concurrent callers are not interleaved.
- PrintTree: the printed connectors, indents and descriptions are not part of this model, only names, depths and branches.
- ParseKeygrips: upper-casing is modelled on ASCII.
- Lock names whose target no longer resolves, for which no lock is taken; engines that outlive their run; hands other than snug's renaming or linking lock files.
- Device and permission errors of the Lstat in the stale test, and its check that the lock is a directory.
- The JSON grammar above tokens: any parser is a function of the token sequence.
- `fix sysctl` without `-w`, which prints the same body and changes nothing.
- The wording of reports and refusals, `engineGCReport`, `describeLeftover`'s text, `gpgScopeFor`, `noteBadFiles`, the host probes and all process starts, networking and DBus code.
