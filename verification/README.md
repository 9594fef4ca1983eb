# Verified models of the operator tools

This project models eight of the repository's Python operator tools in Dafny and proves what they
keep over whole runs: under I/O errors, lost processes, a kernel that runs between any two steps,
a command that is the last one, and another actor in the same directory.

| part | files | tool |
|---|---|---|
| writer gate | `PendingRecord`, `Recency`, `InputWriter`, `InputWriterSafety`, `InputWriterReplies`, `InputWriterGate` | serializes human input against a bounded operator lease |
| process observer | `Kernel`, `FiniteObserver`, `EngineStage`, `ProcessTree` | binds the pids of a unit to pidfds and signals through them |
| TAP pool | `Netfilter`, `SlotPolicy`, `ChainOwnership`, `TapPool`, `SlotLocks`, `SlotOverlap` | firewall chains, links and lock files of four network slots |
| installation | `SourceInstall` | replaces a Runtime file and the receipt that vouches for it |
| push scope | `Sets`, `Worklist`, `InputOwners`, `PushScope`, `PushLoad`, `PushResult`, `TestPlan` | what a push lints and tests |
| image selector | `Positional`, `Alphabets`, `ImageCid` | content identifiers, checksums and sizes |
| reply timing | `ReplyTiming` | sums over the acknowledgement waits of one reply |
| helper staging | `ScriptSources`, `HelperStage` | publication that undoes itself |

`dafny verify dfyconfig.toml` checks everything.

## How the parts are modelled

**Writer gate.** `InputWriter` is the gate as a state machine; clock readings, file and native
errors are arguments of a step. `InputWriterGate.Gate` is the object with its mutable fields, each
method proved equal to a step; `HandleCommand`, `OnMessage` and `CloseGate` keep its invariant
`Safe`. `InputWriterSafety` adds processes that die and restarts, of which the pending file and the
socket path survive, and proves the claims over every run. The protection of an acknowledged effect
ends when its file is unlinked, not when the settle returns: `KilledSettleEndsTheEffect` is a run in
which the process dies in between, and `HoldsUnlessRemoved` says which event ends it, by the guards
of the unlink. A gate that dies leaves its socket path, and the bind of the next constructor refuses
that path: over it no gate comes up until something else clears it (`DeathNeedsClearing`), and
`RestartHolds` says exactly when one does. A key is lost track of exactly when the native handler
raises after it delivered a key-down (`TrackedUnlessLost`). `InputWriterReplies` tells from the
lease and the environment alone what each entry point achieves: when a message passes, when each
command replies and what is then left, that a release takes effect at once, and that a closed gate
stays silent.

**Process observer.** A process is a birth in `Kernel`; pids and start ticks are reused as Linux
reuses them, with two assumptions: a pid is free only after its user was reaped, and two users of
one pid have different start ticks. Before every single observation the kernel plays the next part
of an arbitrary schedule. One claim one might expect of the census is false: a live process of the
unit can be passed over when its pid was bound to an earlier process, because the pid was bound but
never became known (`ReusedPidGoesUnseen`), or because the executable of the process could not be
found, be it that its main thread is dead or that the file was unlinked or replaced
(`UnlinkedGoesUnseen`). `PassedOver` is what then happened on any kernel, and on one that stands
still `ObservePid` says exactly when it happens (`Overlooked`). A census that goes through leaves no
stale record: every counted process that lives showed what is recorded of it during that census
(`UpToDate`), so a process that ran another program is known by the new one.

**TAP pool.** Chains are lists of rules with first-match semantics. Every command is one step and
may be the last: `budget` counts the commands that still succeed. Launchers, restore and removal
are agents that step in any order; the lock files are names of inodes, because removal unlinks the
names after it released the locks. That locks exclude is false once removal unlinks a file that
somebody has open: `LeaseAndSetupOverlap` is a run from a fresh setup in which a lease and a guarded
section then overlap, and `UnlinkInUseDecides` shows that exactly this step opens the way to two
holders of one slot.

**Installation.** The operations of `install` are numbered in program order. A run is given by the
first operation that does not go through and by how it fails: refused, cut off by a hard stop
before its effect, or interrupted by an asynchronous exception right after its effect. The
handlers' operations fail independently. A false receipt arises in one way only, an asynchronous
exception between the rename of the Runtime and the assignment that notes it
(`StaleRestore`, `InterruptedRename`). All this is about one run that has the directory for itself:
the script takes no lock, and of two overlapping runs without any fault the receipt of one can end beside
the Runtime of the other (`OverlappingRuns`, `LastOnesDecide`). Temporary files leak in seven windows (`Leaks`): for each of
the three files when its mode cannot be set and when closing it fails, and for the Runtime also when
closing its source fails, which replaces the result that names the file.

**Push scope.** The closure is the least fixed point of the dependency edges. `PushLoad` derives from
the changed paths which workspaces are loaded first, which only for the search, and which packages
count as changed. That the lint scope equals the closure is false for a package of the second kind
with a changed file of its own (`Straggles`); `LateDirectExactly` says which changed paths make one,
for every member of such a workspace, and `NestedPush` gives two pushes that do, one with a test crate
inside a member and one with a member among the fixtures. For all other packages it is an equivalence.
`PushResult` says the same from paths and metadata alone, and what is never left out: all other
workspaces after a removal, everything after a change of the configuration, a crate whose own file changed.

**Image selector.** What the validator accepts is stated by encoding: Base58 of a multihash, Base32
(section 6 of RFC 4648) of a header and digest, the decimal form of a size. The program's messages
speak of 1..16 GiB, its code admits 1 byte to 16 GiB; the model follows the code.

**Helper staging.** Between any two operations another actor rewrites the directory arbitrarily,
except that it does not put a file of ours where that was not. `Published` is what a run does, as a
function of the actor and the faults; the class `Publication` is proved equal to it. Three claims
one might expect are false and have their runs and conditions: a failure leaves nothing of ours
(`StaysBehind`, `NotNoted`; `RaisedExactly` and `NothingLeft`), and the rollback removes no file of
another (`SwappedFile`, `ReusedIdentity`; `TakenFromOthers`).

## Model

| member | source | states |
|---|---|---|
| PendingRecord.ReadBack | scripts/browser-input-writer-gate.py:33-37 | what `begin` writes, the constructor of a later process reads back as the same admission and effect |
| PendingRecord.TornIsUnreadable | scripts/browser-input-writer-gate.py:125-129 | a proper prefix of a record is empty or opens an object that no brace closes, so no restart accepts it in any layout |
| Recency.RecentStep | scripts/browser-input-writer-gate.py:53-57 | one retirement keeps the bounded list equal to the most recent distinct ids of the history, in order |
| Recency.RecentUntilPushedOut | scripts/browser-input-writer-gate.py:53-57 | an id stays in the list exactly until the limit of other distinct ids was retired after it |
| InputWriterGate.Gate.Open | scripts/browser-input-writer-gate.py:16-51 | no gate for an untrusted pending file, for one not in the layout that the gate writes, for a socket path that is there, or for a setup that fails, and what is then left of the path; otherwise the lease is the recorded one, over, with its effect pending |
| InputWriterGate.Gate.RetireId | scripts/browser-input-writer-gate.py:53-57 | the object's list follows the specification of retirement and appends to the history |
| InputWriterGate.Gate.CurrentLease | scripts/browser-input-writer-gate.py:59-66 | expiry or release retires the id, and ends the lease only without a pending effect |
| InputWriterGate.Gate.OnMessage | scripts/browser-input-writer-gate.py:68-97 | forwarded are exactly the acceptable messages while no lease blocks, and `pong`; keys follow the delivered events; the invariant is kept |
| InputWriterGate.Gate.BeginCommand | scripts/browser-input-writer-gate.py:116-130 | new state and result of `begin` for every check, file error and partial write |
| InputWriterGate.Gate.SettleCommand | scripts/browser-input-writer-gate.py:131-136 | new state and result of `settle`, including a failed unlink |
| InputWriterGate.Gate.ReleaseKeys | scripts/browser-input-writer-gate.py:150-152 | the loop releases all keys, or exactly the smallest ones sent before the call that raised |
| InputWriterGate.Gate.AcquireCommand | scripts/browser-input-writer-gate.py:137-160 | new state and result of `acquire` for every refusal, native error and missed deadline |
| InputWriterGate.Gate.HandleCommand | scripts/browser-input-writer-gate.py:99-169 | the whole command: when it replies, what the reply tells of the lease, and the whole state behind a reply and behind a refusal; the invariant is kept |
| InputWriterGate.Gate.CloseGate | scripts/browser-input-writer-gate.py:198-207 | a closed gate has no lease and no socket path unless its removal failed; the pending file stays |
| InputWriterSafety.CommandInv | scripts/browser-input-writer-gate.py:99-169 | every command keeps: the list is the recent history, a held lease has no tracked keys, its pending effect is the recorded one, its id is retired only once it is over, an open gate has its socket path |
| InputWriterSafety.NextInv | scripts/browser-input-writer-gate.py:15-207 | the same for every event, killed processes and restarts included |
| InputWriterSafety.BeginRecords | scripts/browser-input-writer-gate.py:116-130 | a `begin` that returns has its effect on disk and in the lease |
| InputWriterSafety.HoldsUnlessRemoved | scripts/browser-input-writer-gate.py:131-136 | an unresolved effect survives an event if and only if the event is not a settle of exactly it that an open gate admits and whose unlink works; and the file goes exactly then |
| InputWriterSafety.RemovedExactlyByReturn | scripts/browser-input-writer-gate.py:131-136 | in a process that lives to answer, the file goes exactly when the exact settle returns |
| InputWriterSafety.KilledSettleEndsTheEffect | scripts/browser-input-writer-gate.py:134-136 | a process killed after the unlink ends the effect although no settle returned |
| InputWriterSafety.RestartHolds | scripts/browser-input-writer-gate.py:24-51 | over an unresolved effect a start comes up exactly when no socket path is there and the setup works, and then with the effect unresolved; it is never lost by a start |
| InputWriterSafety.LeftPathKeepsDown | scripts/browser-input-writer-gate.py:44-46 | over a leftover socket path no gate comes up in any run that does not clear it, and the pending file stays |
| InputWriterSafety.DeathNeedsClearing | scripts/browser-input-writer-gate.py:44-46 | the same after the death of any open gate, between or during commands |
| InputWriterSafety.HoldsIsSilent | scripts/browser-input-writer-gate.py:89-91 | while an effect is unresolved only `pong` is forwarded, and no other admission or effect is granted |
| InputWriterSafety.UnresolvedEffectBlocks | scripts/browser-input-writer-gate.py:59-66 | the same over every run that does not remove the file |
| InputWriterSafety.AcknowledgedEffectBlocks | scripts/browser-input-writer-gate.py:116-142 | the whole claim from a `begin` that returned, in any reachable gate, until its own settle unlinks the file |
| InputWriterSafety.SettleReopens | scripts/browser-input-writer-gate.py:131-136 | after the exact settle human input passes again from the lease's expiry on |
| InputWriterSafety.LeaseStep | scripts/browser-input-writer-gate.py:137-160 | a command keeps a held lease's id and expiry, or grants an unretired id for 2 to 30 seconds from the grant |
| InputWriterSafety.NoEarlyRegrant | scripts/browser-input-writer-gate.py:141-142 | an id once retired is not granted again before 128 other distinct ids were retired |
| InputWriterSafety.TrackedUnlessLost | scripts/browser-input-writer-gate.py:91-97 | within a process a pressed key is unknown to the gate exactly after a handler raised behind its delivery |
| InputWriterSafety.GrantHandsOver | scripts/browser-input-writer-gate.py:144-156 | a grant passed the barrier with no tracked key, and with no key down at all exactly when none was lost |
| InputWriterSafety.LeaseMeansHandover | scripts/browser-input-writer-gate.py:79-97 | over any run of one process that loses no key: a held lease means no key is down; never more than 256 keys or 128 ids |
| InputWriterReplies.HumanPassesExactly | scripts/browser-input-writer-gate.py:68-97 | a message is forwarded if and only if it is acceptable and no lease in force or with a pending effect is there, or it is `pong`; each key is down afterwards exactly as the delivered and returned events say |
| InputWriterReplies.RepliesExactly | scripts/browser-input-writer-gate.py:99-169 | each command replies if and only if the lease, the ids, the file and the environment let it; the reply is the lease's state; lease, file, keys and ids behind a reply, and a torn file or released keys behind a refusal, are determined |
| InputWriterReplies.ReleaseEnds | scripts/browser-input-writer-gate.py:112-115 | an admitted release replies, never as active, and retires its id; its own lease is gone and any acceptable message passes at once, or with an effect pending it is held as given back; another lease in force is left alone |
| InputWriterReplies.ReleasedStaysOut | scripts/browser-input-writer-gate.py:141-142 | over every run of the process: a released id is granted again only after 128 other distinct ids were retired |
| InputWriterReplies.ClosedForGood | scripts/browser-input-writer-gate.py:198-202 | over every run of the process a closed gate forwards nothing and answers no command |
| InputWriterReplies.CloseFreesThePath | scripts/browser-input-writer-gate.py:198-207 | after a close a working start over a fine pending file comes up exactly if the socket path could be removed |
| InputWriterReplies.StartsExactly | scripts/browser-input-writer-gate.py:16-51 | a gate comes up if and only if there is no pending file or a trusted one with one valid record, no socket path is there and the setup works; then it has that record's lease, given back, and no other state |
| Kernel.PlayPersists | scripts/ci-installed-journeys.py:244-250 | whatever the kernel does, a process keeps its pid and start ticks, and the death of its main thread, its exit and its reaping are final |
| Kernel.Sandwich | scripts/ci-installed-journeys.py:548-559 | equal pid and ticks before and after opening a pidfd hold if and only if all three are one process |
| Kernel.KeepsPid | scripts/ci-installed-journeys.py:564-566 | a process keeps its pid until it is reaped |
| FiniteObserver.FiniteRuntime.ReadIdentity | scripts/ci-installed-journeys.py:220-241 | the three readings may hit different processes; the ticks are those of the holder at the first one, which itself showed the user and the executable in this very reading or has exited; it is missing only for a process that has exited or just showed that its executable is gone |
| FiniteObserver.FiniteRuntime.MissingIdentity | scripts/ci-installed-journeys.py:523-535 | a listed pid without identity is passed over only if its process has exited or is another one than the bound one, and refused only while a live process holds it; on a kernel that stands still, exactly by the earlier binding and the holder |
| FiniteObserver.FiniteRuntime.Confirm | scripts/ci-installed-journeys.py:551-559 | a confirmed pidfd denotes the process of the first reading, and the second one showed the same user and the same executable, or that it has none |
| FiniteObserver.FiniteRuntime.BindNew | scripts/ci-installed-journeys.py:540-563 | a new binding denotes the process whose identity was read, for any activity in between |
| FiniteObserver.FiniteRuntime.Recheck | scripts/ci-installed-journeys.py:564-566 | an identity under a retained pidfd that has not exited is that of its process, and it is passed over only if that has |
| FiniteObserver.FiniteRuntime.Locate | scripts/ci-installed-journeys.py:519-566 | identity and pidfd of one census entry belong together, within the bound of 512; an entry is passed over exactly in the two cases of an older binding, or has exited |
| FiniteObserver.FiniteRuntime.Classify | scripts/ci-installed-journeys.py:567-579 | a counted process was itself seen in the unit's cgroup, or has exited |
| FiniteObserver.FiniteRuntime.Retain | scripts/ci-installed-journeys.py:540-566 | a retained pidfd is never bound to another process, and only a confirmed entry is added |
| FiniteObserver.FiniteRuntime.Admit | scripts/ci-installed-journeys.py:567-588 | what is recorded of a counted pid is the user, the executable and the ticks of this reading; a known process that lives was itself seen with them and in the unit |
| FiniteObserver.FiniteRuntime.ObservePid | scripts/ci-installed-journeys.py:519-588 | one census entry is bound, counted and recorded as it was just read, has exited, or was passed over behind an older binding because its pid was not known or its executable was gone during the census; on a kernel that stands still a countable member is counted, a process without executable refused, and one behind an older binding passed over exactly when overlooked |
| FiniteObserver.FiniteRuntime.ObserveAll | scripts/ci-installed-journeys.py:518-588 | the same for all entries of a census at its end, and each counted process was read again as what is recorded of it; on a kernel that stands still, which pids are counted |
| FiniteObserver.FiniteRuntime.OthersExited | scripts/ci-installed-journeys.py:589-590 | the test passes exactly when every bound process outside the census has exited |
| FiniteObserver.FiniteRuntime.ObserveOnce | scripts/ci-installed-journeys.py:493-598 | a census that goes through accounts for every live process of the unit and for every process ever bound, and each counted one that lives showed its recorded user and executable, or none, during this census; on a kernel that stands still a census of countable members, new or known, and overlooked processes goes through and counts exactly the members |
| FiniteObserver.ReusedPidGoesUnseen | scripts/ci-installed-journeys.py:564-575 | a run in which a live member of the unit is neither counted nor bound by a census that goes through |
| FiniteObserver.UnlinkedGoesUnseen | scripts/ci-installed-journeys.py:521-525 | the same under a known pid: the main thread lives, and the executable was unlinked |
| FiniteObserver.FiniteRuntime.Poll | scripts/ci-installed-journeys.py:253-261 | a readable pidfd means that its whole process has exited |
| FiniteObserver.FiniteRuntime.Send | scripts/ci-installed-journeys.py:753-756 | a signal reaches the process its pidfd is bound to exactly if that one still lives, and raises exactly if it was reaped |
| FiniteObserver.FiniteRuntime.SignalBound | scripts/ci-installed-journeys.py:753-759 | the bound process is signalled or has exited, no other one is touched, and the lookup error is never raised again |
| FiniteObserver.FiniteRuntime.SignalNative | scripts/ci-installed-journeys.py:745-759 | every native process of the last census is signalled or has exited; no other process, and never the helper, is signalled |
| EngineStage.Stages.Engines | scripts/ci-installed-journeys.py:600-612 | the engines are exactly the census members whose guard and provider the Runtime started |
| EngineStage.EngineChain | scripts/ci-installed-journeys.py:604-609 | an engine is exactly the end of a chain of census members from the Runtime over a provider and a guard that run the provider's program |
| EngineStage.Stages.RunningRound | scripts/ci-installed-journeys.py:629-634 | done exactly when the census goes through and shows one engine, which is then selected with the processes of its group; another round when it shows none; failed when it does not go through or shows two |
| EngineStage.Stages.CrashRound | scripts/ci-installed-journeys.py:635-639 | the kill reaches the process that was selected and no other, after a poll that showed it alive; it fails only if the census does, if the selected engine is not the only one, or if it has exited |
| EngineStage.Stages.StoppedRound | scripts/ci-installed-journeys.py:640-656 | over only when the census shows no engine, every process of the selected group has exited and an idle stage has its 50 seconds; failed and repeated only for the stated other cases; an engine gone before the minimum fails an idle stage |
| EngineStage.Stages.ExitedEarly | scripts/ci-installed-journeys.py:647-649 | an idle stage fails exactly if the engine itself has exited before the minimum |
| EngineStage.Stages.GroupRound | scripts/ci-installed-journeys.py:650-656 | another round as long as somebody of the group lives; then failure exactly before the minimum of an idle stage |
| ProcessTree.Ancestor | scripts/ci-installed-journeys.py:978-981 | the walk ends on every table, cyclic ones included, at the Runtime if and only if it is an ancestor |
| ProcessTree.OwnedProcesses | scripts/ci-installed-journeys.py:972-989 | selected are exactly the processes of the installed paths and, under an installed Runtime, its descendants, with their roles |
| ProcessTree.RolesExactly | scripts/ci-installed-journeys.py:984-987 | the Runtime is told by its pid, then a guard by its flag whatever it runs, then a provider, then a server |
| ProcessTree.BranchesAreWhole | scripts/ci-installed-journeys.py:978-983 | everything between a descendant and the Runtime is selected too |
| SlotPolicy.NetworksDistinguishable | scripts/browser-vm-linux-network.py:32-38 | for any digest bytes the four slots have different devices, named by the prefix and the slot, and different addresses, each pair the usable part of its own /30 of 192.168.200-239 |
| SlotPolicy.PoolsApart | scripts/browser-vm-linux-network.py:33-36 | two users' pools share an address if and only if their digest bytes agree modulo 40 and 16, slot by slot |
| SlotPolicy.InputRulesDecide | scripts/browser-vm-linux-network.py:48-55 | the input chain accepts exactly the tracked, control, TURN and relay packets from the guest to its host address and drops the rest |
| SlotPolicy.InputVerdict | scripts/browser-vm-linux-network.py:105-110 | with a slot's rules in force, whatever the host's rules: its input is decided by its chain alone, its IPv6 and forwarding are dropped |
| SlotPolicy.RelayRulesDecide | scripts/browser-vm-linux-network.py:66-72 | the relay chain lets go on exactly what goes to the relay ports or the TURN listener and drops the rest |
| SlotPolicy.RelayVerdict | scripts/browser-vm-linux-network.py:75-77 | relayed media is dropped or meets exactly the host's own rules |
| SlotPolicy.UnrelatedExactly | scripts/browser-vm-linux-network.py:75-77 | a packet that is neither from a slot's device nor relayed media of a slot is exactly one that no hook of the pool matches |
| SlotPolicy.HostVerdict | scripts/browser-vm-linux-network.py:85-102 | such a packet meets exactly the host's policy in every state of the pool |
| ChainOwnership.InstallTwice | scripts/browser-vm-linux-network.py:85-102 | owning a chain a second time changes nothing |
| ChainOwnership.RemoveUndoes | scripts/browser-vm-linux-network.py:85-102 | removal after installation leaves what removal before it leaves |
| ChainOwnership.FirewallTwice | scripts/browser-vm-linux-network.py:105-110 | both laws for a whole slot |
| ChainOwnership.FirewallInParts | scripts/browser-vm-linux-network.py:105-110 | the three calls together install, or remove, all of the slot's rules |
| ChainOwnership.FirewalledConfines | scripts/browser-vm-linux-network.py:105-110 | an installed slot is confined, with each hook exactly once and ahead of the host's rules |
| ChainOwnership.HookEdit | scripts/browser-vm-linux-network.py:90-92 | deleting or inserting a hook leaves the other slots confined and the host's rules in order |
| ChainOwnership.OwnEdit | scripts/browser-vm-linux-network.py:93-101 | so does any edit of the slot's own chains |
| ChainOwnership.EditWhileDown | scripts/browser-vm-linux-network.py:241-252 | with the slot's link down such edits keep every live slot confined |
| TapPool.BuildInputRules | scripts/browser-vm-linux-network.py:48-55 | the two loops build the policy's list |
| TapPool.Host.PurgeHook | scripts/browser-vm-linux-network.py:87-89 | the loop ends with no copy of the hook, wherever it is stopped the others are undisturbed |
| TapPool.Host.FillChain | scripts/browser-vm-linux-network.py:90-100 | the chain holds exactly the wanted rules |
| TapPool.Host.DestroyChain | scripts/browser-vm-linux-network.py:90-96 | the chain is gone, nothing else changed |
| TapPool.Host.OwnChain | scripts/browser-vm-linux-network.py:85-102 | a complete call installs or removes one part; it stops only at a command that fails, and then the other slots and the host's rules are as before |
| TapPool.Host.Firewall | scripts/browser-vm-linux-network.py:105-110 | the same for a whole slot |
| TapPool.Host.Invalidate | scripts/browser-vm-linux-network.py:204-211 | links only go down; a complete call leaves none of the pool up |
| TapPool.Host.RestoreSlot | scripts/browser-vm-linux-network.py:241-252 | after every command a slot with its link up has all its rules |
| TapPool.Host.Restore | scripts/browser-vm-linux-network.py:241-252 | the same over the pool; complete, every slot is up and confined |
| TapPool.Host.RestoreAction | scripts/browser-vm-linux-network.py:365-368 | from any state of rules and links the action ends safe, or stopped while it was still taking links down |
| TapPool.Host.RemoveSlot | scripts/browser-vm-linux-network.py:276-282 | a slot is removed without ever being up unconfined |
| TapPool.Host.Remove | scripts/browser-vm-linux-network.py:274-282 | a complete removal leaves exactly the host's own rules and no device |
| SlotLocks.ApplyInv | scripts/browser-vm-linux-network.py:169-194 | every step keeps one holder per lock file and the agents' bookkeeping: a section runs only with all locks, a lease only with its own |
| SlotLocks.NamedUnlessUnlinkedInUse | scripts/browser-vm-linux-network.py:291-292 | open files stay the named ones exactly as long as removal unlinks no file in use |
| SlotLocks.ExclusiveSections | scripts/browser-vm-linux-network.py:228-228 | with one holder per slot a guarded section overlaps no lease and no other section |
| SlotLocks.LocksExclude | scripts/browser-vm-linux-network.py:169-194 | the same over every run of any number of agents that unlinks no file in use |
| SlotLocks.FromFresh | scripts/browser-vm-linux-network.py:214-228 | hence over every such run from a fresh setup no slot has two holders and no section overlaps another or a lease |
| SlotOverlap.UnlinkInUseDecides | scripts/browser-vm-linux-network.py:291-292 | where names and open files agree, a step opens the way to two holders of one slot if and only if it unlinks a file in use |
| SlotOverlap.LeaseAndSetupOverlap | scripts/browser-vm-linux-network.py:274-292 | from a fresh setup: removal unlinks the file that a launcher has open, and the launcher's lease overlaps the next restore on its slot |
| SlotLocks.LauncherStep | scripts/browser-vm-linux-network.py:182-193 | a lease is granted only under the slot's lock with its carrier read as down |
| SlotLocks.BusyWasSeen | scripts/browser-vm-linux-network.py:182-194 | a launcher that reports all slots busy saw each one locked or carrying |
| SlotLocks.MaintenanceStep | scripts/browser-vm-linux-network.py:169-177 | restore and removal get behind a slot only at a step at which they hold its lock and read its carrier as down; a carrier that is up or a lock that is taken ends them |
| SlotLocks.SectionSawAllFree | scripts/browser-vm-linux-network.py:169-177 | over every run: a guarded section runs only after its agent read each of the four carriers as down under that slot's lock, and with all four locks held |
| SlotLocks.NamesChangeOnly | scripts/browser-vm-linux-network.py:173-173 | a launcher changes no name; maintenance only creates a missing one for a new file, and only removal takes one away |
| SlotLocks.UnlinkStep | scripts/browser-vm-linux-network.py:291-292 | removal comes to the names without any lock, gets behind each only by taking it away, and can always go on; any agent can leave at any time |
| SourceInstall.CopyProgram | scripts/install-source-home-runtime.py:307-327 | with reads and writes of any size the copy and the digest are the source, or the limit, the size or the test that the source is unchanged fails |
| SourceInstall.HashDescriptor | scripts/install-source-home-runtime.py:130-150 | the digest covers the whole file, unchanged meanwhile, or the call fails, reading at most one byte over the limit |
| SourceInstall.Installation.StageRuntimeFile | scripts/install-source-home-runtime.py:299-342 | the temporary Runtime is complete, or gone but for three windows |
| SourceInstall.Installation.StageReceiptFile | scripts/install-source-home-runtime.py:345-366 | the same for the temporary receipt |
| SourceInstall.Installation.WithdrawReceipt | scripts/install-source-home-runtime.py:441-450 | the old receipt is moved aside whole or stays |
| SourceInstall.Installation.PublishRuntimeFile | scripts/install-source-home-runtime.py:452-464 | the Runtime is replaced by the staged bytes or unchanged; the flag lags behind exactly at an exception after the rename |
| SourceInstall.Installation.DropOldReceipt | scripts/install-source-home-runtime.py:466-469 | the withdrawn receipt is removed unless the removal refused |
| SourceInstall.Installation.PublishReceiptFile | scripts/install-source-home-runtime.py:470-484 | the receipt names the staged hash, and completion means that all checks passed |
| SourceInstall.Installation.Publish | scripts/install-source-home-runtime.py:417-485 | what the handler finds, wherever the body broke off |
| SourceInstall.Installation.Repair | scripts/install-source-home-runtime.py:486-508 | the handler ends with a true receipt, the old one, or none, except for the one bad interruption |
| SourceInstall.Installation.Install | scripts/install-source-home-runtime.py:413-508 | over all runs: the receipt is true exactly unless the bad interruption happened; success exactly when all operations go through; a failure restores both files before the rename and leaves no receipt after it; temporary files are left exactly in the seven windows |
| SourceInstall.InterruptedRename | scripts/install-source-home-runtime.py:452-457 | the bad interruption for any two Runtimes with different hashes |
| SourceInstall.LastOnesDecide | scripts/install-source-home-runtime.py:452-484 | however the renames of several runs interleave, the receipt is true in the end exactly if there is none, or the last Runtime and the last receipt have one hash |
| SourceInstall.OverlappingRuns | scripts/install-source-home-runtime.py:452-484 | two runs that pass all their tests and leave a false receipt |
| Worklist.Closure | scripts/ci-local-prepush.py:382-386 | the worklist ends on cyclic graphs with exactly what the seeds reach |
| Worklist.Least | scripts/ci-local-prepush.py:382-386 | the closure is the least closed set with the seeds |
| InputOwners.Visit | scripts/ci-local-prepush.py:272-289 | a package's changed inputs are exactly those mentioned by a file that its sources lead to |
| InputOwners.MentionsExactly | scripts/ci-local-prepush.py:284-289 | a source mentions a changed file exactly if it refers to it or to a file of its template capsule |
| InputOwners.ExternalInputOwners | scripts/ci-local-prepush.py:258-293 | owners are exactly the packages that lead to a changed file, or all of them if some product input is claimed by none |
| PushScope.Seeds | scripts/ci-local-prepush.py:317-360 | the seeds are exactly the owners and the packages with changed inputs; what that means for the paths is `PushResult` |
| PushScope.Consumers | scripts/ci-local-prepush.py:375-381 | the edges are exactly the declared path dependencies of all loaded workspaces |
| PushScope.Select | scripts/ci-local-prepush.py:399-408 | per workspace: direct packages are tested, direct and related ones are linted |
| PushScope.TouchedWorkspaces | scripts/ci-local-prepush.py:364-413 | a package is linted if and only if a seed reaches it or it straggles; unit scope lies within lint scope |
| PushLoad.NearestIs | scripts/ci-local-prepush.py:331-332 | the manifest found for a changed path is the one below all others above the path |
| PushLoad.Candidates | scripts/ci-local-prepush.py:325-339 | first loaded are exactly the workspaces of the manifests that changed paths lead to, or all when the scope is broad; a changed source without manifest is the error |
| PushLoad.Load | scripts/ci-local-prepush.py:340-345 | every wanted manifest is then known, and only workspaces of unknown ones are loaded |
| PushLoad.PushChecks | scripts/ci-local-prepush.py:296-413 | the whole selection from the changed paths: refused exactly for a leftover folder or an orphan, otherwise loaded, late and linted as stated |
| PushLoad.LateIsNotFound | scripts/ci-local-prepush.py:369-374 | a workspace is loaded late only if nothing widened the scope and no changed path leads to any of its manifests |
| PushLoad.LateDirectExactly | scripts/ci-local-prepush.py:396-404 | any package of such a workspace counts as changed if and only if a changed input lies below it, or is a file of its workspace, and does not lead to that manifest: an inner one is nearer, or that one is not discoverable |
| PushLoad.NestedPush | scripts/ci-local-prepush.py:399-408 | two pushes, each given by two changed paths, that lint a package which no seed reaches |
| PushResult.RelatedExactly | scripts/ci-local-prepush.py:364-386 | told by paths and metadata: the search gives exactly the folders on a trail of path dependencies that begins at an owner, at a crate whose tests are due, or, after a removal, at any loaded crate outside the Runtime |
| PushResult.LoadedExactly | scripts/ci-local-prepush.py:390-412 | of a workspace loaded for its paths exactly the crates on a trail are linted, and exactly those are tested whose own files, workspace or inputs changed |
| PushResult.LateExactly | scripts/ci-local-prepush.py:390-412 | the same for a workspace loaded late, with its stragglers |
| PushResult.RemovalLintsAll | scripts/ci-local-prepush.py:303-313 | a push that removes a package lints every crate of every discoverable workspace but the Runtime's |
| PushResult.ConfigurationChecksAll | scripts/ci-local-prepush.py:312-315 | a change of the toolchain or cargo configuration lints and tests every crate, the Runtime's included |
| PushResult.ChangedIsChecked | scripts/ci-local-prepush.py:355-360 | a changed file below a crate, no text, has the crate linted and tested if its workspace is loaded for the paths, and loaded it is when the crate's manifest is the nearest one and discoverable |
| PushResult.FindsExactly | scripts/ci-local-prepush.py:326-335 | a changed path leads to the manifest nearest above it if that is discoverable, unless the path is a template's manifest or lies in a removed package |
| PushResult.RefusedExactly | scripts/ci-local-prepush.py:308-337 | a push is refused if and only if the folder of a removed package is still there, or a changed source or manifest, not exempt, lies below no tracked manifest |
| PushResult.RemovedExactly | scripts/ci-local-prepush.py:305-307 | removed are exactly the folders whose manifest is a changed path, is gone, and is neither a template's nor test data |
| TestPlan.UnitPlan | scripts/ci-local-prepush.py:458-481 | all tests unless every changed file is a proved module; then exactly the proved prefixes per target |
| TestPlan.ChangedModuleCovered | scripts/ci-local-prepush.py:471-481 | the plan covers the tests of every changed module |
| TestPlan.NarrowPlansEach | scripts/ci-local-prepush.py:468-481 | a plan that is not full has every changed file, a Rust source that is there, planned in some target |
| TestPlan.WidensExactly | scripts/ci-local-prepush.py:468-478 | the plan is full exactly if nothing changed, or some changed file is gone, no Rust source or proved in no target |
| TestPlan.Incomparable | scripts/ci-local-prepush.py:523-524 | no remaining prefix is a prefix of another |
| TestPlan.SameCoverage | scripts/ci-local-prepush.py:523-524 | the reduction covers exactly the same tests |
| TestPlan.OneCovers | scripts/ci-local-prepush.py:523-524 | one remaining prefix at most covers a test |
| TestPlan.PlanRuns | scripts/ci-local-prepush.py:519-534 | a test runs if and only if a planned prefix fits it, or some planned prefix fits no test of the target, and then in exactly one invocation; no invocation is without a test |
| Positional.MinimalOfNumber | scripts/browser-image-cid-input.py:15-18 | digits without a leading zero are determined by their number |
| Positional.PrefixBetween | scripts/browser-image-cid-input.py:17-18 | a number between two multiples of a power has the multiplier's digits in front |
| ImageCid.DecodeEncode | scripts/browser-image-cid-input.py:24-26 | Base32 decoding inverts encoding for byte strings of every length |
| ImageCid.DigitsV0 | scripts/browser-image-cid-input.py:19-19 | every Base58 form of a SHA-256 multihash has 46 digits of which 23 and 44 are the first |
| ImageCid.FormV0 | scripts/browser-image-cid-input.py:13-20 | hence it begins with "Qm" and reads back to the multihash |
| ImageCid.OneDigest | scripts/browser-image-cid-input.py:13-27 | no identifier names two digests |
| Alphabets.Base58Exactly | scripts/browser-image-cid-input.py:14-14 | the digits are the ASCII figures and letters in their order, without 0, I, O and l |
| Alphabets.Base32Exactly | scripts/browser-image-cid-input.py:22-24 | the digits are a to z and then 2 to 7 |
| ImageCid.Value58 | scripts/browser-image-cid-input.py:16-17 | the loop computes the value of the digits, or fails on a foreign character |
| ImageCid.ValidSize | scripts/browser-image-cid-input.py:11-12 | accepted are exactly the decimal forms of 1 to 16 * 1024^3 |
| ImageCid.ValidSelector | scripts/browser-image-cid-input.py:13-27 | accepted are exactly the Base58 and Base32 identifiers of some digest |
| ImageCid.ChecksumExactly | scripts/browser-image-cid-input.py:9-10 | a checksum is 64 figures and letters from a to f |
| ImageCid.Validate | scripts/browser-image-cid-input.py:8-27 | the three tests together, as an equivalence |
| ReplyTiming.AcknowledgementTimings | scripts/ci-installed-model-timing.py:39-49 | the first 512 admissible acknowledgements, in order |
| ReplyTiming.AdmittedExactly | scripts/ci-installed-model-timing.py:43-46 | admissible are exactly the matching lines whose wait lies within their first hour |
| ReplyTiming.TotalByKind | scripts/ci-installed-model-timing.py:68-69 | delta and terminal waits add up to all waits |
| ReplyTiming.Disjoint | scripts/ci-installed-model-timing.py:78-84 | no two delta waits of an accepted run overlap |
| ReplyTiming.AllDisjoint | scripts/ci-installed-model-timing.py:78-88 | nor do any two waits, the terminal one included, and all lie between the first delta and the last mark |
| ReplyTiming.UntilBound | scripts/ci-installed-model-timing.py:91-92 | the waits before the end of the stream fit between the first delta and that end |
| ReplyTiming.UntilIsPrefix | scripts/ci-installed-model-timing.py:91-92 | the counted waits are the first ones: each is over by the end of the stream, and every other one begins behind it |
| ReplyTiming.Bounds | scripts/ci-installed-model-timing.py:90-105 | both sums of a complete run are within their intervals |
| ReplyTiming.OnceExactly | scripts/ci-installed-model-timing.py:62-66 | a stage has a time if and only if exactly one mark bears its name, and it is that mark's |
| ReplyTiming.RunMetrics | scripts/ci-installed-model-timing.py:52-108 | accepted are exactly the complete runs, so the test at line 93 rejects none; the result is the report of marks and waits; net generation time and total wait are bounded |
| ReplyTiming.OneReport | scripts/ci-installed-model-timing.py:94-108 | the report determines every number |
| ScriptSources.Sources | scripts/browser-host-release.py:29-86 | accepted are exactly the fitting selections, with distinct release names and install paths; the last test rejects none |
| ScriptSources.FitsExactly | scripts/browser-host-release.py:50-75 | a selected component fits if and only if it has a native file and no script, or a script in its two places under a filename and no native file, or does not exist on the platform |
| ScriptSources.SelectionExactly | scripts/browser-host-release.py:35-43 | the selection is a list of different filenames, and the native ones are among them |
| HelperStage.Publication.Add | scripts/browser-host-release.py:122-127 | creation, note and writing of one file: how far it gets, and what is then in the directory and noted |
| HelperStage.Publication.Undo | scripts/browser-host-release.py:129-135 | one turn of the handler against any actor: what is removed and when it raises |
| HelperStage.Publication.Rollback | scripts/browser-host-release.py:128-136 | the loop's turns up to the first that raises; what it took from others is what the removals say |
| HelperStage.Publication.Publish | scripts/browser-host-release.py:118-136 | the loop and its handler come to the specified end for every actor and fault, and take nothing from others but by removals |
| HelperStage.Publication.Stage | scripts/browser-host-release.py:89-137 | nothing is created unless every item is admitted, and then publication follows |
| HelperStage.ExactCopies | scripts/browser-host-release.py:120-127 | after a success the files of ours that are still there are exact copies under their names |
| HelperStage.WhatStays | scripts/browser-host-release.py:128-136 | after any failure, against every actor, the files of ours that can stay: those noted from the turn on that raised, and one not noted |
| HelperStage.NothingLeft | scripts/browser-host-release.py:128-136 | against every actor: after a failure whose handler raised nothing, nothing of ours is left but a file that was created and not yet noted |
| HelperStage.RaisedExactly | scripts/browser-host-release.py:129-135 | the handler raises exactly at a turn with a fault of its own or whose file vanishes between look and removal |
| HelperStage.TurnRemoves | scripts/browser-host-release.py:129-135 | a turn removes the file under its name, whatever that is by then, if and only if its look showed a regular file of the noted identity; otherwise it leaves the directory |
| HelperStage.SuccessIsQuiet | scripts/browser-host-release.py:121-127 | a success removed nothing and noted every file |
| HelperStage.StaysBehind | scripts/browser-host-release.py:129-135 | a run in which that happens and a later file of ours stays |
| HelperStage.NotNoted | scripts/browser-host-release.py:123-125 | a run in which an exception between creation and note leaves a file although the handler raised nothing |
| HelperStage.TakenFromOthers | scripts/browser-host-release.py:131-135 | a removal takes a file of another exactly by a swap behind the look or a file of another that was looked at, which needs a reused identity |
| HelperStage.Alone | scripts/browser-host-release.py:118-137 | with nobody else: success, with the directory extended by exactly the files, if and only if all names are free and nothing fails; a failure leaves the directory as it was, up to a file not noted and to a handler's own fault |
| HelperStage.SwappedFile | scripts/browser-host-release.py:131-135 | a swap between the look and the removal loses the other actor's file |
| HelperStage.ReusedIdentity | scripts/browser-host-release.py:131-135 | so does a file that was given the created file's identity |

## Left out

- Real sockets, threads, processes, `systemctl`, `ip`, `iptables`, `git`, `cargo`: only their effects, as steps that may fail.
- The gate's connections and request framing (lines 171-196).
- InputWriterGate.Gate.Open: a pending file in another JSON spelling than the gate writes is refused, because the gate alone writes that private file and the spellings that a JSON reader admits are not modelled.
- Other effects of native X11 calls: forwarded commands other than key down, key up and reset leave the pressed keys alone, and nothing is claimed about keys across a restart.
- The observer's memory metrics, OOM counters, outside pids, executable hashes, and the command line that gives the guard role; errors of reading under `/proc` other than a missing file, which end a census with an exception, except for that of the executable's link; the deadlines of the stages, of which one round is modelled.
- Changes to rules and links made by other root tools; routes, addresses, `sysctl` and access lists are steps without modelled effect. The probes `-C` and `-S` are taken as truthful.
- SHA-256: an arbitrary function of the bytes. The digest bytes of a user id are arbitrary.
- Ownership, mode and path checks of `install` before its transaction, and the other fields of its receipt.
- Text scanning in `referenced_inputs` and `module_prefix`: references and proven prefixes are inputs. Paths are taken as resolved, and a package or workspace in the repository's root folder is not considered.
- The order of the test invocations and the contents of cargo's output.
- Redaction, receipt shape checks, manifest audits, compiler driving, caches, bootstrap discovery: many easy members, no protocol.
- PushLoad.PushChecks: takes cargo's metadata as consistent (each manifest in one workspace, which all its manifests name) and as available, because cargo gives that and its failure is just another refusal; the order in which workspaces are loaded is left open.
- SourceInstall.Installation.Install: a second run in the same directory at the same time is not part of this run; overlapping runs are modelled by their renames and tests alone (`LastOnesDecide`), because faults of several runs at once add cases and no claim.
- SlotLocks.LocksExclude: requires that no lock file in use is unlinked, because the code's removal can do that and the claim is then false (`LeaseAndSetupOverlap`).
- HelperStage.ExactCopies: assumes that the system gives a new file no identity that a file of ours in the directory still has, as file systems do; identities of deleted files may come back.
- HelperStage.NothingLeft: another actor that moves a file of ours to another name is not considered, because the program knows its files by name and would not find it.
- The checks that a launcher passes before its loop (line 181 of `browser-vm-linux-network.py`): it may arrive at the loop in any state, because the host can change after them.
- Removal gives up its locks one by one, but an agent that leaves or dies closes all its files in one step.
