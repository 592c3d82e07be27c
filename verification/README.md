# Verification of the database-encryption VFS, its run controller and the tools around them

This project models, in Dafny 4.11, the parts of the repository in which several
parties or several runs meet, and proves what they keep. `dafny verify
dfyconfig.toml` checks all of it.

**The locks of the checked VFS** (`ByteLocks`, `LockProtocol`, `LockSafety`,
`LockHistory`, `CheckedFileLocks`). SQLite's five lock levels, built from three
byte ranges by separate calls of the operating system. Any number of handles
interleave at every such call, any check may fail, any process may die. The lock
table is the environment: exclusive conflicts with everything, shared with
exclusive, locks stack, an unlock needs the exact range. `CheckedFileLocks` has
the callbacks as the source writes them, with other handles stepping in between,
and shows that they are runs of the protocol in which every answer has its
reason. A finding: after the EXCLUSIVE to SHARED downgrade, or the restoring
after a refused upgrade, a failed check leaves a handle at a reading level
without its read lock. `LockHistory` gives the run and the exact condition.

**The WAL index** (`ShmProtocol`, `ShmInvariant`, `ShmSafety`, `ShmStale`,
`ShmWords`, `ShmFiles`). The eight lock slots, the mapped regions and the deadman
byte, interleaved the same way. `ShmFiles` has the callbacks with their region
array and 32-bit masks, and shows that they are runs of the protocol, with a
reason for every answer; in `ShmWords` the masks refine sets of slots. A finding,
in `ShmStale`: a handle can be admitted, alone, to an index that nobody cleared
for it. That happens exactly if something was there when another handle turned it
away, or was added after it cleared the index itself, with no clearing since and
every other user gone; three runs show a clearing that fails, a user that
departs, and a user that comes and goes between the handle's clearing and its
sharing.

**The run controller** (`RunController`, `RunOwnership`, `RunSafety`,
`RunCommands`, `RunHazard`). Operator commands and supervisors of one host,
durable receipts, an admission file, and a cloud whose start call may take effect
arbitrarily late. Every process may die between any two effects, every call may
fail before or after its effect, and the supervisor may stop the instance without
any lock when its storage fails. Tag and admission file go only when nothing can
start any more, provided no start tags, in time and under a supervisor, an
instance that is not stopped. `RunCommands` has the commands as the source writes
them, with everything else going on in between: what a command must have seen, or
what must have failed, for it to answer as it does, and that a late supervisor
brings the instance down. A finding: if another party starts the instance between
a start's first look and its tag, one passing storage fault lets the supervisor
release a run whose start is still pending. `RunHazard` shows this after every
such tag, so that the condition is exact.

**Paths, roots and deletion** (`CheckedPath`, `CheckedOpen`, `RootRegistry`).
What a path must be, what containment means, which handles an open keeps and why
it may fail, in which order a durable delete works, and the linked list of roots
with its counts and what each call does to the ownership of paths.

**Tools** (`Sharding`, `ShardPlan`, `ControlCycles`, `ResultsLog`,
`ResultsExamples`, `PairedStatistics`, `CiAcceptance`, `CiPolicy`). The load
bound of the test shards, the one timeline of controlled cycles, the resumable
results log with its limits, the exact test and the interval of the reports, when
CI does reduced work, and the canonical form of a CI acceptance. Two findings in
the results log: a line whose answer holds a Unicode line separator, which the
JSON encoder leaves as it is, is lost on resume; and a crash inside a multi-byte
character keeps the file from being read at all. Both come with the exact
condition and an answer that shows it.

Names: an action sequence `acts` run by `Exec` is one interleaving; a lemma about
`Exec(EMPTY, acts)` holds of every reachable state. `Fold` is the case folding of
the system, `Codec` the JSON encoder; both are parameters.

## Model

| member | source | states |
|---|---|---|
| LockSafety.ExclusiveExcludes | native/dbcrypt-vfs/vfs.c:93-178 | for any number of handles interleaved at every byte-lock call, while one is EXCLUSIVE no other holds any byte of the SHARED range |
| LockSafety.OnePending | native/dbcrypt-vfs/vfs.c:115-119 | at most one handle is at PENDING or above, at every point of every call |
| LockSafety.OneReserved | native/dbcrypt-vfs/vfs.c:110-114 | at most one handle holds the RESERVED byte, a probing fReserved included |
| LockSafety.FlagsMirrorTable | native/dbcrypt-vfs/vfs.c:93-166 | between calls level and flags say exactly which byte locks the table has for the handle, each at most once |
| LockSafety.CallsAreSound | native/dbcrypt-vfs/vfs.c:93-178 | no call asks for bytes its own handle holds, and every unlock names a range held: nothing stacks, no unlock fails |
| LockSafety.ReadersDrain | native/dbcrypt-vfs/vfs.c:101-134 | while a handle holds PENDING the set of other handles that hold SHARED only shrinks, over any run of the others |
| LockSafety.RefusalUnderPending | native/dbcrypt-vfs/vfs.c:125-129 | under PENDING a request for SHARED is refused only by readers |
| LockSafety.RelockNeverRefused | native/dbcrypt-vfs/vfs.c:127-131 | re-taking the read lock after a refused upgrade, or in the EXCLUSIVE to SHARED downgrade, is never refused, whatever others did since PENDING |
| LockSafety.UpgradeWaitsForReaders | native/dbcrypt-vfs/vfs.c:120-126 | the upgrade to EXCLUSIVE is refused exactly while some other handle still reads |
| LockSafety.StepIsLocal | native/dbcrypt-vfs/vfs.c:28-45 | a step of one handle leaves the fields and locks of the others alone |
| LockHistory.LevelMeansReadLock | native/dbcrypt-vfs/vfs.c:101-166 | a handle between calls at a reading level holds the SHARED range if and only if its last re-taking of it did not fail the check |
| LockHistory.ReaderBesideWriterLostItsLock | native/dbcrypt-vfs/vfs.c:127-164 | a reading level beside another handle at EXCLUSIVE happens only to a handle whose re-taking failed |
| LockHistory.LevelWithoutReadLock | native/dbcrypt-vfs/vfs.c:141-165 | a concrete run: the downgrade fails its check, the level says SHARED, no byte is held, and fLock(SHARED) then answers Ok |
| CheckedFileLocks.CheckedFile.FLock | native/dbcrypt-vfs/vfs.c:93-134 | the callback with interference at each byte-lock call is a run of the protocol; Busy only if another handle stood, at a moment of the call, against a byte lock the request needs; an error only if a check failed or the request does not fit; else Ok, at the level asked for, and at EXCLUSIVE no other handle holds a SHARED byte |
| CheckedFileLocks.CheckedFile.LockExclusive | native/dbcrypt-vfs/vfs.c:115-134 | the upgrade: PENDING is kept on failure, the read lock is given up only while asking for the write lock |
| CheckedFileLocks.CheckedFile.FUnlock | native/dbcrypt-vfs/vfs.c:136-166 | to NONE it always succeeds and leaves no byte locked; to SHARED the read lock stays unless the check fails, which is the only error; a call with nothing to give up changes nothing |
| CheckedFileLocks.CheckedFile.FReserved | native/dbcrypt-vfs/vfs.c:168-178 | its answer was right at one moment of the call; an error only if a check failed |
| CheckedFileLocks.CheckedFile.FClose | native/dbcrypt-vfs/vfs.c:69-82 | closing leaves nothing of the handle in the table |
| CheckedFileLocks.Database.CiLock | native/dbcrypt-vfs/checked_io.c:519-527 | the lock call: refused only on a clash with another handle at that moment, failed only by its check, never refused when a read lock is re-taken |
| CheckedFileLocks.Database.CiUnlock | native/dbcrypt-vfs/checked_io.c:529-535 | the unlock call succeeds, as its range is always held |
| CheckedFileLocks.ProbeSeesReserved | native/dbcrypt-vfs/vfs.c:174-177 | a refused probe of the RESERVED byte means another handle holds it |
| ShmInvariant.ReachableInv | native/dbcrypt-vfs/vfs.c:200-323 | in every run of opening, mapping, locking, unmapping and crashes: fields, regions, masks and byte locks fit one another |
| ShmInvariant.ShrinksAlone | native/dbcrypt-vfs/vfs.c:210-222 | a step that shortens the index leaves no other user: its handle holds the deadman byte exclusively, or nobody has the file open |
| ShmInvariant.ViewIsThePage | native/dbcrypt-vfs/vfs.c:250-256 | for every admitted page no overflow; the view starts at an allocation boundary, ends exactly with the mapping, and the pointer denotes page * 32768 |
| ShmInvariant.GrownKeepsRegions | native/dbcrypt-vfs/vfs.c:238-243 | growing the region array keeps every earlier region and clears the rest |
| ShmSafety.ViewsStayInside | native/dbcrypt-vfs/vfs.c:224-264 | a live view lies inside the file and its handle holds the deadman byte shared |
| ShmSafety.ClearedOnlyUnused | native/dbcrypt-vfs/vfs.c:210-215 | the index gets shorter only by a handle with the deadman byte exclusive, or when nobody has it open, and then nobody has a view |
| ShmSafety.MappedPagesStay | native/dbcrypt-vfs/vfs.c:200-264 | a page once mapped keeps its view, inside the file, over any run until its own handle unmaps or closes |
| ShmSafety.PointerIsThePage | native/dbcrypt-vfs/vfs.c:258-264 | when fMap hands out a pointer, it denotes the page asked for and the whole page is in the file |
| ShmSafety.MapAnswers | native/dbcrypt-vfs/vfs.c:233-264 | in every run, past the opening: fMap answers Ok without a pointer if and only if the page is not in the file and the file is not to grow, and an error only if a call failed |
| ShmSafety.ShrinksOnRequest | native/dbcrypt-vfs/vfs.c:200-323 | the index gets shorter only by a clearing while opening, or by the unmapping that was asked to remove it |
| ShmSafety.MasksAreLocks | native/dbcrypt-vfs/vfs.c:266-292 | the masks are the slots of which byte locks are held, by mode; no byte twice, no slot in both |
| ShmSafety.MasksExclude | native/dbcrypt-vfs/vfs.c:266-292 | the exclusive mask of one handle is disjoint from both masks of every other |
| ShmSafety.RefusedIffConflict | native/dbcrypt-vfs/vfs.c:282-291 | a slot lock that reaches the lock table is refused if and only if another handle's masks conflict with it |
| ShmSafety.UnlockUndoesLock | native/dbcrypt-vfs/vfs.c:275-281 | the unlock of the same slots and mode restores masks and table |
| ShmSafety.UnlockAnswers | native/dbcrypt-vfs/vfs.c:266-281 | in every run the answer of an unlock, in both directions: Ok if none of the slots is in a mask or they are what one lock took, in its mode; else the error it is; and what it leaves |
| ShmSafety.LockAnswers | native/dbcrypt-vfs/vfs.c:266-291 | in every run the answer of a lock, in both directions: Busy if and only if its slots are free in the own masks, the check passes and another handle's masks conflict with it; and what it leaves |
| ShmSafety.SharedAgain | native/dbcrypt-vfs/vfs.c:283-285 | and a shared lock that was granted takes nothing more when it is repeated |
| ShmStale.StaleIffLeftOver | native/dbcrypt-vfs/vfs.c:200-222 | over every interleaving: a handle is admitted to a non-empty index that nobody else uses if and only if something was there when it was turned away, or was added by anyone, without a clearing since, and everybody else admitted has gone |
| ShmStale.OpenClearsOrShares | native/dbcrypt-vfs/vfs.c:200-222 | so an opening without another handle stepping in always ends in an empty index or beside another live user |
| ShmStale.StaleAfterFailedClearing | native/dbcrypt-vfs/vfs.c:210-218 | a concrete run, for any left-over length: the handle that was turned away is admitted, alone, although the clearing failed |
| ShmStale.StaleAfterDeparture | native/dbcrypt-vfs/vfs.c:210-218 | another: a live user turns the handle away and dies before the handle shares the byte |
| ShmStale.StaleAfterOwnClearing | native/dbcrypt-vfs/vfs.c:210-218 | another: the handle clears the index itself, and somebody opens it, grows it and dies before the handle shares the byte |
| ShmWords.MaskIsSlots | native/dbcrypt-vfs/vfs.c:274 | ((1<<count)-1)<<offset is the set of the slots offset to offset+count-1 |
| ShmWords.DecidesUnlock | native/dbcrypt-vfs/vfs.c:276-278 | the tests on 32-bit words decide what the tests on sets of slots do, to unlock |
| ShmWords.DecidesLock | native/dbcrypt-vfs/vfs.c:285-286 | and to lock |
| ShmFiles.ShmFile.SlotLock | native/dbcrypt-vfs/vfs.c:266-292 | on 32-bit masks it refines the protocol's step on sets of slots: answer, masks and lock table |
| ShmFiles.ShmFile.FShmLock | native/dbcrypt-vfs/vfs.c:266-292 | under whatever table the others left at a moment of the call it answers as the protocol; a request that is not legal changes nothing |
| ShmFiles.ShmFile.ShmOpen | native/dbcrypt-vfs/vfs.c:200-222 | with other handles stepping in at every call: on Ok the handle holds the deadman byte, otherwise the index is closed again; Busy only if another held that byte at a moment of the call, an error only if something failed |
| ShmFiles.ShmFile.FMap | native/dbcrypt-vfs/vfs.c:224-264 | the callback is a run of the protocol: the pointer is that of the page asked for, the page is all in the file, earlier mapped regions stay; Ok without a pointer only if the file was too short at a moment of the call and was not to grow; every error has its reason |
| ShmFiles.ShmFile.FUnmap | native/dbcrypt-vfs/vfs.c:296-323 | it leaves no view, no byte lock and no open index; an error only if a call failed; a removal leaves an empty index unless there was no handle to delete it with |
| ShmFiles.ShmFile.Grow | native/dbcrypt-vfs/vfs.c:238-243 | the reallocated array is the old one, extended by cleared regions |
| ShmFiles.ShmFile.UnmapAll | native/dbcrypt-vfs/vfs.c:304-308 | every region of the array is unmapped, and the array given up |
| RunOwnership.ReachableBase | tools/dbcrypt_acceptance_control.py:248-446 | in every run of arm, start, stop and watch with crashes and failures anywhere: locks exclude, tag implies admission file, receipts are sane |
| RunOwnership.AtMostOneStart | tools/dbcrypt_acceptance_control.py:313-321 | each receipt's start is called at most once |
| RunOwnership.StartsAreRecorded | tools/dbcrypt_acceptance_control.py:309-321 | a start is issued only when receipt, tag and admission file say so and the clock was read before the deadline less 60 seconds; it is then pending, and when it takes effect the instance is up |
| RunOwnership.OnlyItsOwnRelease | tools/dbcrypt_acceptance_control.py:344-391 | tag and admission file of a run are removed only by that run's own release |
| RunSafety.ReachableSafe | tools/dbcrypt_acceptance_control.py:285-446 | the safety invariant, when no start tags, in time and under a supervisor, an instance that is not stopped |
| RunSafety.ReleasedOnlyWhenSettled | tools/dbcrypt_acceptance_control.py:381-392 | tag and admission file go only when no start of any run can take effect any more; the tag only while the instance is stopped, and the file too unless another party has started the instance since the process last looked, and exactly then |
| RunSafety.LeavingPower | tools/dbcrypt_acceptance_control.py:385-391 | between that last look and the unlink the instance is not stopped if and only if another party has started it meanwhile |
| RunSafety.StartsTakeEffectOwned | tools/dbcrypt_acceptance_control.py:309-321 | however late a start takes effect, tag and admission file are still its run's |
| RunSafety.StoppedIsFinal | tools/dbcrypt_acceptance_control.py:372-379 | a receipt that says stopped, or that no start is uncertain, stays right whatever happens next |
| RunSafety.LateSupervisorStops | tools/dbcrypt_acceptance_control.py:412-427 | in every run a supervisor that gets its receipt stands at its stop two steps of its own later if and only if the clock is a minute before the deadline or later, or the receipt says stopping, settling or stopped |
| RunHazard.ProtectedIffClean | tools/dbcrypt_acceptance_control.py:307-321 | the exact condition: after a step no clean run can leave a pending start without its tag or admission file if and only if the step does not tag, in time and under a supervisor, an instance that is not stopped |
| RunHazard.TagOnRunningIsHazardous | tools/dbcrypt_acceptance_control.py:307-312 | without it: after every such tag, wherever the supervisor stands and whatever it retains, a run leads to a released tag and admission while the start call is pending |
| RunHazard.UncleanIsTag | tools/dbcrypt_acceptance_control.py:307-312 | the steps that are not clean are these tags |
| RunHazard.HazardIsReached | tools/dbcrypt_acceptance_control.py:307-310 | and such states are reached |
| RunCommands.Host.Arm | tools/dbcrypt_acceptance_control.py:248-277 | which refusal is given when, and that otherwise a stopped, free instance gets one armed receipt |
| RunCommands.Command.Start | tools/dbcrypt_acceptance_control.py:285-328 | the command, call by call with everything else going on in between, is a run of the machine. When it is done, it had seen receipt, clock and admission file in order and the instance stopped, untagged and then with its tag; tag, admission file and durable receipt are this run's, its start was issued exactly once and pending, and what it records was seen. It refuses only for a reason it found, and fails only if something failed |
| RunCommands.Command.StillInTime | tools/dbcrypt_acceptance_control.py:313-317 | past the deadline less 60 seconds it refuses, and no start was issued |
| RunCommands.Command.StopCloud | tools/dbcrypt_acceptance_control.py:354-379 | when it decides, the instance was seen, or made, no longer on, and the receipt in memory is what two looks at the instance call for; it raises only if a call failed or the looks forbid to stop; with or without the receipt lock |
| RunCommands.Command.PublishCleanup | tools/dbcrypt_acceptance_control.py:381-392 | what is published is durable; a stopped run is released, with no start pending; it raises only if something failed or the recorded run may not be released |
| RunCommands.Command.Stop | tools/dbcrypt_acceptance_control.py:394-403 | when stop answers, the instance was seen or made no longer on; when it answers stopped, tag and admission file are gone, the receipt says so durably, and, where no tag broke the condition of RunSafety, no start of the run can take effect; when it raises, something failed, or what it found, which it recorded, forbade it |
| RunCommands.Command.StopWithoutStorage | tools/dbcrypt_acceptance_control.py:429-437 | the same without storage, working on the retained receipt |
| RunCommands.Command.Watch | tools/dbcrypt_acceptance_control.py:405-446 | the supervisor ends by itself only when its run is stopped for good and released; when it is late, the instance is seen or made no longer on, unless something failed or the instance is not its own |
| RunCommands.Command.Round | tools/dbcrypt_acceptance_control.py:413-446 | a round goes on to stop whenever the clock, as it begins, is a minute before the deadline or later, the stored receipt is past running, or storage failed; and otherwise only if it became so |
| CheckedPath.AcceptedIsCanonical | native/dbcrypt-vfs/checked_io.c:77-112 | what is accepted comes out canonical, is accepted again unchanged, and is a drive and leaves, none of which is empty, a dot or two dots |
| CheckedPath.BuiltIsCanonical | native/dbcrypt-vfs/checked_io.c:96-112 | conversely every drive with leaves, short enough, is a canonical path of just these names |
| CheckedPath.CheckLeaf | native/dbcrypt-vfs/checked_io.c:77-94 | the scanner decides what a leaf is |
| CheckedPath.LeafIff | native/dbcrypt-vfs/checked_io.c:77-94 | what a leaf is: 1 to 239 units, none a control or one of eight characters, no dot or space at the end, and no device name, alone or before a dot, in whatever case |
| CheckedPath.CiPath | native/dbcrypt-vfs/checked_io.c:96-112 | the loop accepts exactly the accepted paths and leaves their canonical spelling in the buffer |
| CheckedPath.CiContains | native/dbcrypt-vfs/checked_io.c:304-307 | the comparison decides containment |
| CheckedPath.ContainsIsDescent | native/dbcrypt-vfs/checked_io.c:304-307 | of canonical paths, containment is proper descent name by name on one drive, but for case |
| CheckedPath.RootsOfOnePath | native/dbcrypt-vfs/checked_io.c:304-307 | two roots that contain one path are equal or nested |
| CheckedOpen.CiFile.Walk | native/dbcrypt-vfs/checked_io.c:316-327 | the walk pins exactly the directories between root and file, in order |
| CheckedOpen.CiFile.CiOpen | native/dbcrypt-vfs/checked_io.c:309-356 | opens the directories between root and file and then the file, nothing else, each found in order before anything more is asked, and creates only if asked to; fails only if the path is outside, too far, or a step failed, as not found exactly if the file itself was missing; and then everything opened on the way is closed |
| CheckedOpen.CiFile.CiClose | native/dbcrypt-vfs/checked_io.c:390-394 | every handle of the file is given back, and it answers Ok exactly if every closing went well |
| CheckedOpen.CiFile.PinOpen | native/dbcrypt-vfs/checked_io.c:216-236 | a directory that fails its checks is closed again, and one that passes them all is pinned |
| CheckedOpen.CiFile.CiDeleteAndSync | native/dbcrypt-vfs/checked_io.c:453-468 | the file is closed, the pins kept, no other handle kept, the order of the steps kept, with the file's own directory as the barrier, and the first error returned, on every path |
| CheckedOpen.LogIsOrdered | native/dbcrypt-vfs/checked_io.c:453-468 | marked only behind a validated barrier, closed once, flushed only after a successful mark and close, barrier closed last |
| CheckedOpen.LogError | native/dbcrypt-vfs/checked_io.c:453-468 | which error that first one is |
| CheckedOpen.CiFile.VDelete | native/dbcrypt-vfs/vfs.c:371-392 | deleting gives every handle back, creates nothing, answers Ok only if the file came open and was marked, and its directory flushed where asked; says no entry exactly if the file was missing; and otherwise reports the first error of opening, delete or closing |
| RootRegistry.ReachableRegistry | native/dbcrypt-vfs/vfs.c:520-558 | over any sequence of register, open, close and unregister: no root in another, distinct tokens, counts equal open files, no open file without its root |
| RootRegistry.OneRootContains | native/dbcrypt-vfs/vfs.c:54-58 | at most one root contains a path |
| RootRegistry.OrderIsFree | native/dbcrypt-vfs/vfs.c:54-58 | so the search finds the same root whatever the order of the list |
| RootRegistry.CloseIsRefusedInUse | native/dbcrypt-vfs/vfs.c:546-558 | closing a root is refused exactly while one of its files is open |
| RootRegistry.RegisterAnswers | native/dbcrypt-vfs/vfs.c:520-544 | after any sequence: registering is refused exactly if a registered root is the same, inside or around; else there is one root more, with a token no other has, that owns what lies under it, and the others own what they owned |
| RootRegistry.CloseAnswers | native/dbcrypt-vfs/vfs.c:546-558 | after any sequence: a root is freed exactly if it is registered and no file of it is open; it then owns nothing and the others own what they owned |
| RootRegistry.OpenAnswers | native/dbcrypt-vfs/vfs.c:342-369 | after any sequence: a file opens exactly if a root owns its path and its own opening works; that root counts one more and cannot be closed; closing the file restores everything |
| RootRegistry.Registry.FindRoot | native/dbcrypt-vfs/vfs.c:54-58 | the loop over the linked list finds the first root that contains the path |
| RootRegistry.Registry.RegisterRoot | native/dbcrypt-vfs/vfs.c:520-544 | refused exactly on a clash; else the new root is the head of the old list, with a fresh token |
| RootRegistry.Registry.CloseRoot | native/dbcrypt-vfs/vfs.c:546-558 | the root of the token is unlinked if unused, and nothing else changes |
| RootRegistry.Registry.Enter | native/dbcrypt-vfs/vfs.c:355-366 | an opened file is counted on the one root that contains it |
| RootRegistry.Registry.Leave | native/dbcrypt-vfs/vfs.c:78-80 | and taken off on close |
| Sharding.FourThirds | tools/run_native_test_shard.py:50-56 | no shard weighs more than 4/3 - 1/(3m) of what any assignment to m shards puts on its heaviest |
| Sharding.PreloadedBound | tools/native_test_plan.py:40-46 | with a preload a load is the bare preload or at most the average of everything plus 1 - 1/m of the last module |
| Sharding.SumIsTotal | tools/run_native_test_shard.py:50-56 | however assigned, the loads add up to the total |
| ShardPlan.SortedFalls | tools/run_native_test_shard.py:52 | sorting puts heavier modules first |
| ShardPlan.SortedIsStable | tools/native_test_plan.py:42-43 | and breaks ties by selector order |
| ShardPlan.AssignedIsGreedy | tools/native_test_plan.py:43-46 | every module goes to a shard then least loaded |
| ShardPlan.PlanIsPartition | tools/native_test_plan.py:43-47 | every module is on exactly one shard, listed once, in selector order |
| ShardPlan.PlanIsBalanced | tools/native_test_plan.py:40-47 | the preload bound, of the planned shards, by the lightest module of the shard, the last assigned |
| ShardPlan.PlanIsNearBest | tools/run_native_test_shard.py:50-56 | the 4/3 bound, of the planned shards against any other way to spread the modules |
| ShardPlan.NoShardIsEmpty | tools/run_native_test_shard.py:48-56 | with positive weights and no fewer modules than shards, no shard is empty |
| ShardPlan.Assign | tools/native_test_plan.py:41-46 | the greedy loop computes the specified assignment |
| ShardPlan.ShardModules | tools/run_native_test_shard.py:39-56 | refuses exactly an empty or repeated selector and a bad count; else answers the planned shards, none empty |
| ShardPlan.PlanNativeModules | tools/native_test_plan.py:25-47 | refuses exactly an unknown tier, a bad shard and repetition; else the planned shard with the preload of the tier's data |
| ShardPlan.ShardsAreNearBest | tools/run_native_test_shard.py:39-56 | in measured seconds: no shard planned takes longer than 4/3 - 1/(3m) of the longest shard of any other way |
| ShardPlan.NativeIsBalanced | tools/native_test_plan.py:25-47 | in measured seconds, with the helper packs on the first shard: a shard takes at most the average of everything plus 1 - 1/m of its quickest module, or nothing of its own |
| ControlCycles.OneTimeline | tools/_dbcrypt_acceptance_evidence.py:580-586 | per platform the sequences are 1 to n, the first is a start, and action times rise with them |
| ControlCycles.SeparatedCycles | tools/_dbcrypt_acceptance_evidence.py:580-597 | cycles separated by a later start do not overlap: the earlier stopped before the run of the later was created |
| ControlCycles.DifferentRunsAreSeparated | tools/_dbcrypt_acceptance_evidence.py:587-593 | two cycles of different runs have a start between them |
| ControlCycles.PhasesDoNotOverlap | tools/_dbcrypt_acceptance_evidence.py:600-617 | phases on one machine that belong to different runs follow one another in the order of their cycles |
| ControlCycles.AcceptedIsStopped | tools/_dbcrypt_acceptance_evidence.py:421-577 | an accepted cycle: seen stopped and untagged before a start, running and tagged after the action, and by somebody independent stopped and untagged at the end, in this order, by a supervisor that had just reported, a minute and more before the deadline |
| ControlCycles.CycleHasStart | tools/_dbcrypt_acceptance_evidence.py:580-597 | every cycle goes back to a start of its own run with only reboots in between, and shares its stop |
| ControlCycles.StartShowsStop | tools/_dbcrypt_acceptance_evidence.py:587-597 | a later start shows the receipt and the look of the cycle just before it, of another run of the same instance |
| ControlCycles.RebootRestsOnStart | tools/_dbcrypt_acceptance_evidence.py:448-537 | a reboot rests on a valid start of the very run it reboots, seen running before it |
| ControlCycles.PhasesFillCycles | tools/_dbcrypt_acceptance_evidence.py:600-617 | every phase names exactly one cycle, ran in its time and in one of its modes, and every cycle has a phase |
| ControlCycles.SomeCyclesAreAccepted | tools/_dbcrypt_acceptance_evidence.py:421-617 | a timeline of two runs, the second rebooted, is accepted |
| ResultsLog.ReadKeepsCleanLines | tools/provenance_eval/run.py:207-221 | reading a whole log keeps, per key, the last line without any line separator, and exactly those |
| ResultsLog.TornLineIsIgnored | tools/provenance_eval/run.py:207-221 | a torn last line is ignored, and what the complete lines before it say is read |
| ResultsLog.CrashedLogReads | tools/provenance_eval/run.py:207-221 | of a log cut at any byte: nothing is read if the cut tears a character, and otherwise what its complete lines say, one that lost only its newline included |
| ResultsLog.AppendedReads | tools/provenance_eval/run.py:207-221 | the same of what a later invocation appended to any file, over what that held |
| ResultsLog.TornIff | tools/provenance_eval/run.py:210-213 | a crash makes the file unreadable if and only if it cuts inside a character |
| ResultsLog.ResumesToTheSame | tools/provenance_eval/run.py:316-356 | after any number of crashes between characters and resumes, a pass to the end leaves what one uninterrupted run leaves: the answers whose lines hold no line separator, so all of them if and only if none does; the others are asked again each time |
| ResultsExamples.PlainIsLawful | tools/provenance_eval/run.py:329 | there is an encoding with the laws asked of JSON lines |
| ResultsExamples.SeparatorLosesTheAnswer | tools/provenance_eval/run.py:214-221 | an answer with U+2028 in it is complete in the file, is not read back and is asked again |
| ResultsExamples.TearableIffWide | tools/provenance_eval/run.py:211 | a text can be torn by a crash so that it cannot be read if and only if it holds a multi-byte character |
| ResultsExamples.AccentTearsTheFile | tools/provenance_eval/run.py:211 | an answer with an accented letter, and the crash after which no invocation can read the file |
| ResultsLog.SurvivorsAreKept | tools/provenance_eval/run.py:316-332 | after any crashes and resumes, an answer whose line is complete in the file and holds no line separator is read back and not asked again |
| ResultsLog.AskedIffLost | tools/provenance_eval/run.py:316-332 | after any crashes and resumes a planned key is asked again if and only if its line does not stand in the file, or was no answer |
| ResultsLog.AnsweredIsKept | tools/provenance_eval/run.py:317-321 | an answered key is not asked again and keeps its line |
| ResultsLog.ReadTerminated | tools/provenance_eval/run.py:335-340 | terminating a torn last line changes nothing that is read |
| ResultsLog.EvalRun.Loop | tools/provenance_eval/run.py:316-332 | one invocation asks the open keys in order, writes, remembers and counts each; it stops exactly before the first whose calls or price would not fit, for that reason, and stays within max_calls and the budget if it began there and every turn keeps to its bound |
| ResultsLog.EvalRun.Stop | tools/provenance_eval/run.py:275-286 | a question may not run exactly if its calls or its price would break a limit |
| ResultsLog.PlannedIs | tools/provenance_eval/run.py:316-319 | a key is planned exactly if it is the name of a question and a repetition below reps; the plan has each in its place |
| ResultsLog.EvalRun.Ask | tools/provenance_eval/run.py:327-331 | one question adds one line, one entry and its calls |
| PairedStatistics.SwapKeepsTest | tools/provenance_eval/report.py:48-63 | the four cells are the four kinds of pairs; exchanging the runs exchanges the discordant cells and nothing else |
| PairedStatistics.OutcomesAreWeighted | tools/provenance_eval/report.py:59-60 | tosses of fair coins are counted by binomial coefficients |
| PairedStatistics.ExactIsProbability | tools/provenance_eval/report.py:59-61 | the exact p is the chance that fair coins split the discordant pairs at least as unevenly, ties included |
| PairedStatistics.CompareIsTest | tools/provenance_eval/report.py:48-63 | what compare reports: each cell is the number of its questions; below 25 discordant pairs p is that chance, otherwise the tail of the corrected statistic |
| PairedStatistics.WilsonHoldsTheRate | tools/provenance_eval/metrics.py:62-70 | over the reals the interval contains k/n and lies in [0, 1] before it is clamped |
| PairedStatistics.WilsonEndsSolve | tools/provenance_eval/metrics.py:62-70 | and its two ends solve the score equation |
| CiAcceptance.ExpectedWorkers | tools/ci_evidence.py:238-253 | the loops yield exactly the expected identities, each with its packs |
| CiAcceptance.ValidateWorker | tools/ci_evidence.py:381-402 | the loop over all steps and the comparison decide whether a worker is valid |
| CiAcceptance.MergePacks | tools/ci_evidence.py:383-388 | the steps of all packs, unless two packs disagree on one |
| CiAcceptance.ValidIffGreen | tools/ci_evidence.py:340-402 | a worker passes validation if and only if it was asked for and every required step succeeded |
| CiAcceptance.AcceptedIff | tools/ci_evidence.py:415-435 | there is an acceptance if and only if policy, jobs, documentation checks and exactly the expected workers are in order |
| CiAcceptance.OrderDoesNotMatter | tools/ci_evidence.py:428-430 | every permutation of the workers gives the same acceptance |
| CiAcceptance.AcceptanceIsValid | tools/ci_evidence.py:438-449 | validate_acceptance accepts what accept returns, and reproduces it |
| CiAcceptance.AcceptedUnlessDraft | tools/ci_evidence.py:425-435 | an acceptance holds just these workers, in the one rising order, and results; it says accepted for every mode but draft feedback, and feedback only for that |
| CiAcceptance.ValidPolicyIsCanonical | tools/ci_evidence.py:159-236 | there is one valid policy of each kind: a final one is settled by event, tier and reason, an ordinary one by the systems, packs and modules it runs |
| CiAcceptance.EveryPackIsRun | tools/ci_evidence.py:238-253 | of a valid policy every listed pack is run by an expected worker of its system, and no other is; a final policy lists all |
| CiAcceptance.NeedsFollowWorkers | tools/ci_evidence.py:405-412 | a job must succeed exactly if a worker of it is expected |
| CiAcceptance.AcceptedRanEverything | tools/ci_evidence.py:415-435 | an acceptance has every listed pack run by one of its workers, with every step of it a success |
| CiPolicy.BuildPolicyIsValid | tools/ci_test_policy.py:186-255 | every policy made of a sound context passes validate_policy |
| CiPolicy.SelectionCovers | tools/ci_test_policy.py:186-255 | and in every mode but draft feedback every tag of every changed file, other than documentation, is covered by the policy |
| CiPolicy.ModeIffReviewed | tools/ci_test_policy.py:121-184 | for each mode exactly when it is chosen: documentation only if every changed file was reviewed as that alone |
| CiPolicy.RoutineIffReadable | tools/ci_test_policy.py:186-255 | exactly when the exclusions of the routine tier are used |
| CiPolicy.SelectionIsExact | tools/ci_test_policy.py:186-255 | and an ordinary policy asks for nothing but the base and what the tags ask for |
| CiPolicy.DraftRunsBase | tools/ci_test_policy.py:186-255 | draft feedback runs the base packs, on just the systems the changes are tagged with, or on all |
| CiPolicy.ValidMeans | tools/ci_evidence.py:159-236 | what validation insists on: base packs wherever a system runs, no unknown pack, whole families only, and the routine tier only in final runs of dev |
| CiPolicy.ClassifyChanges | tools/ci_change_scope.py:247-280 | the loop computes the specified scope |
| CiPolicy.ValidateChanges | tools/ci_change_scope.py:225-244 | the loop decides whether the changes are valid |

## Left out

- Win32 itself: access control lists, file identity, volumes and final path names are the outcome of ci_check or of opening, which may fail at any call.
- Unlocking a range that is held, and unmapping a view that is mapped, succeed; CloseHandle closes even when it reports an error.
- fRead, fWrite, fSync, fSize, fControl and the other callbacks without state of their own.
- CompareStringOrdinal failing outright in mordred_vfs_register_root, which refuses the root.
- The path and name part of shm_open, the mapping counters, and the delete handle of fUnmap beside the fact that it shares with nobody.
- The test hooks and observers compiled under MORDRED_VFS_TESTING, and probe.c, which forwards every callback.
- CheckedPath.ContainsIsDescent: the case folding is required to leave the backslash alone and to make no other one; RootsOfOnePath, OneRootContains, OrderIsFree and OpenAnswers rest on the same.
- CheckedPath.LeafIff: the folding is required to make no dot of another character.
- ci_root_open: the drive, volume and ownership checks; a root is registered with its canonical path.
- Several controller hosts: the tag claim excludes within one host only, as the source says.
- RunController: tag, release and stop calls take effect when they are made; a start call takes effect at most once; no other party starts the instance while it carries a tag of ours; observations are exact at their moment.
- The supervisor's liveness check before a start is a step that may fail; the credential and account checks likewise; the machine's arm asks for less than the command does, which refuses as the source.
- RunCommands: arm is taken at one moment; of all processes one is written as commands at a time, and the others act as the machine lets them; a lock that is not had is a lock call that raises; Watch is given a number of rounds, since a supervisor may go on for ever.
- RunCommands.Command.Stop: that no start is pending is stated for runs in which no start tags, in time and under a supervisor, an instance that is not stopped, as everything of RunSafety; RunHazard shows that this is needed.
- Receipt files are replaced as a whole; a torn admission file is kept as such.
- ResultsLog.ReadKeepsCleanLines: JSON text is a pair of functions of which it is required that a line decodes to itself and that no proper part of a line is a line.
- ResultsLog: the time stamp and run identity of a line, how the price of a turn is estimated, and the limits over several invocations, whose earlier tries the ledger does not count.
- ControlCycles: the literal field checks of snapshots and observations, the file digests of actions, and the binding of modes to bundles; stop receipts are compared by a digest without collision among them.
- CiAcceptance: JSON shapes and size limits; the native manifest is judged by a predicate; repository, commit and run identity are one flag of the context.
- CiPolicy: reading events, the GitHub API and git; what they yield is the event. The patterns of sensitive paths and families are sets.
- PairedStatistics: rounding of floating point; the chi-square tail is a parameter.
- Sharding: rounding of floating point in the loads.
- The Rust helpers, mail and Telegram encoders, model drivers, version bumping, bundle building and the extension: no shared state, or readings of single branches.
