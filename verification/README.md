# Infix: a verified model of its core logic

Infix is a network operating system assembled around a handful of programs of its own.
This project models the ones whose logic is hard and proves what they promise, for every
input, every run or every history:

- **`net`, the generation switcher.** A depth-first walk over an interface dependency graph,
  with a visited list, an append-if-absent order file, its reversal for teardown, and the
  `gen`/`next` hand-over. Files: `DepOrder`, `Net`, `NetHistory`, `NetLog`.
- **The PROFINET application's connection list and event loop.** A fixed array of
  application relations (ARs) with in-place deletion, lazy compaction and an iterator over
  it; per-AR event bits plus a global event word; alarms. The array code refines a list, and
  a state machine over callbacks and loop phases gives the properties of whole runs. Files:
  `ArList`, `ArEvents`, `EventMachine`, `EventLoop`, `EventFate`, `Callbacks`, `App`, `LostAlarm`;
  the subslot table is in `Subslots`, the interface name list in `NetifNames`.
- **confd's compiler from configuration differences to `ip` scripts.** Libyang diffs,
  address and link commands, recreation, veth pairs, dependency links, and a kernel of devices
  with kind, addresses, administrative state and bridge, in which adding what is there or
  deleting what is not is an error and a deleted device takes along whatever stands on it. The theorems say when running the scripts of a committed change, or
  of a whole history of changes, makes the kernel what the configuration says. Files: `Lyx`,
  `Addresses`, `FreshAddresses`, `Kernel`, `Interfaces`, `InterfaceScripts`, `Netdag`, `Commit`,
  `CommitRun` (a change that works), `CommitFailures` (and one that does not), `CommitTheorems`,
  `RemovalOrder`, `AdminState`, `CommitExamples`, `HistoryExamples`; claiming, abandoning and
  evolving generations is in `Generations`, inference on the candidate configuration in
  `Candidate` and `NameRules`, the commit hook in `CommitHook`.
- **The test library**: mapping a logical topology onto a physical one (`Topology`) and the
  comment writer (`CommentWriter`).

Code that changes state step by step is modelled by classes and loops that are proved
against functions; the theorems are about those functions. Names are strings. Files of a
directory are sequences, in the order the directory is read. Failures of operations outside
the code (pipes, renames, the reversal by `sed`) are parameters of a run. Automatic induction
is turned off in every lemma, so no proof rests on an induction hypothesis that is not written.

## What is assumed about the surroundings

- `net`: symbolic link names equal their target names, and a generation's dependencies form
  no cycle (`Net.WellFormed`). `Commit.DepsAreAcyclic` shows that confd writes no cycles.
- confd: the diff records the change (`Lyx.Records`, `Addresses.RecordsFamily`,
  `Interfaces.RecordsIface`); in particular the `enabled` leaf of a family has operation
  `replace` exactly when its effective value changes. Configurations are well formed
  (`Interfaces.WellFormed`): veth pairs are symmetric, parents and bridges exist and stacking
  has no cycle, tag types are known, and `lo` is not among the interfaces. Interfaces keep
  their kind (`Interfaces.SameKinds`); everything else about them may change.
- Generations: a callback whose CHANGE failed gets no ABORT, and `ln -s` fails if the link is
  there (`Generations.Claimed`).
- The PROFINET application: callbacks and the bodies of the loop are atomic, and real AR
  numbers differ from `UINT32_MAX`. An event word is the set of its bits.
- The topology matcher returns a kind-preserving isomorphism onto an induced subgraph
  (`Topology.IsMatch`), and no device has the kind `port`.

## Where the code does not do what one would expect

Each of these is a theorem about the code as it is, with the exact condition where there is one.

- A pass of `net` drops return codes of nested visits: it reports failure exactly when a
  failing interface is listed before all interfaces that depend on it
  (`Net.PassReportsFailureIff`, with the family of examples `Net.NestedFailureIsLost`).
- The first run that tries a generation decides how it will be torn down, and no later run
  repairs it: after a failed setup teardown runs nothing, after a failed reversal it follows
  whatever that left (`NetHistory.TeardownCompleteIff`, `NetHistory.RetryLosesTeardown`).
- An event signalled to an AR in the middle of a round is dropped exactly when the round no
  longer serves it, began with an abort pending, and handles an abort of that AR
  (`EventFate.DroppedIff`). So the application drops an alarm that comes with the stack's
  periodic work in a round with an abort (`EventFate.AlarmIsDropped`, `LostAlarm.LosesAlarm`).
  An event pending when the loop waits is never dropped (`EventMachine.NoEventLost`).
- A committed change reaches the new configuration exactly when its removals take nothing
  along that is not meant to go, every veth end with another peer is made again by it, and no
  port leaves a bridge that stays (`CommitTheorems.CommitCorrectIff`). So:
  - A VLAN that stays while the VLAN it stands on is recreated is lost
    (`CommitExamples.RecreatedParentLosesVlan`, `CommitExamples.RetaggingLosesTheUpperVlan`).
  - A veth pair can never be removed as a whole (`CommitTheorems.RemovingVethFails`,
    `CommitExamples.RemovingAPairFails`).
  - A veth whose peer is exchanged for one that was there before gets no link command and
    keeps the old one, because the test for a changed peer looks for `peer` and not
    `veth/peer` (`CommitTheorems.ExchangedPeerFails`, `CommitExamples.SwappingPeersFails`).
    `netdag_must_del` means such a veth to be recreated; the model follows what it tests.
    Exchanged for a new one, it depends on the listing (`HistoryExamples.ReplacingAPeerIff`),
    and never works with an address to keep (`HistoryExamples.ReplacingLosesAddress`).
  - No command ends the membership in a bridge, so a port that should leave its bridge is
    still a port of it, unless the bridge goes or the port is made again
    (`CommitTheorems.LeavingABridgeFails`, `CommitExamples.LeavingItsBridgeFails`).
  - Dependency links are written for changed interfaces only, so the order of the next
    removals knows nothing of the others. A VLAN touched by the change before is always
    removed ahead of its parent (`RemovalOrder.TouchedAfterParent`). Any other one is so if and
    only if the walk over the listing met the parent first: from a node listed ahead of the one
    it met the VLAN from, or ahead of the VLAN in the walk from that node
    (`RemovalOrder.ForgottenListingIff`, and the history `HistoryExamples.ForgottenHistory`).
- Every claim of the next generation links the exit order into the current one, which works
  once. So after the first commit, the first change that is abandoned for whatever reason is
  the last one accepted (`Generations.AcceptedIff`).
- When two changed veths name the same absent peer, the peer that is made up points back to
  the first only (`Candidate.PeerPointsBackIff`, `Candidate.OnePeerForTwo`).
- Pulling a submodule compares the slot with `PNET_MAX_SUBSLOTS`, lookup does not ask
  whether a cell is used, and plugging a number again hides one of the two
  (`Subslots.Table.PullSubmodule`, `Subslots.ZeroIsFoundIff`, `Subslots.PlugAgainIsSeenIff`).
  With the default sizes, a submodule of slot 3 or 4 is never replaced
  (`Subslots.FirstPlugStays`, `Subslots.StaleSubmodule`).
- An empty write at the start of a line makes the comment writer put out a prefix ahead of
  its line (`CommentWriter.ChunkingDoesNotMatter`); the early return that seems meant to
  prevent it is never taken.

## Model

| member | source | states |
|---|---|---|
| `DepOrder.RankDecreases` | src/net/src/main.c:178-220 | in an acyclic graph the number of nodes below falls along every edge, which is why the recursion ends |
| `DepOrder.WalkVisits` | src/net/src/main.c:178-220 | a walk visits its root and only nodes below it, and never meets the root again from below |
| `DepOrder.WalkAllTopological` | src/net/src/main.c:178-242 | recording first finishes of a walk keeps any dependency-ordered record in dependency order |
| `DepOrder.OrderIsTopological` | board/common/rootfs/sbin/dagger:19-31 | the order of first finishes over a listing of all nodes has every node exactly once, after everything it depends on directly or not |
| `DepOrder.ReverseOrderVisitsDependersFirst` | board/common/rootfs/sbin/dagger:29-30 | the reversed order has every node exactly once, before everything it depends on directly or not |
| `DepOrder.FlatOrder` | board/common/rootfs/sbin/dagger:19-31 | a generation without dependency links is set up in the order of its directory listing |
| `DepOrder.ListingDecides` | board/common/rootfs/sbin/dagger:19-31 | of two nodes one is set up before the other if and only if it is met from what is listed ahead of the node that the other is first met from, or finished before it in the walk from that node |
| `DepOrder.ListingDecidesAlone` | board/common/rootfs/sbin/dagger:19-31 | a node without dependencies that is met where it is listed comes after exactly what is met from the nodes listed ahead of it |
| `Net.VisitAllMeans` | src/net/src/main.c:71-99 | a sequence of visits records exactly the first occurrences, in order, for this generation only, counts each new line, and runs one action for each name new to the visited list that has it |
| `Net.PassRunsInDependencyOrder` | src/net/src/main.c:178-242 | one pass runs every existing action exactly once and never before those of direct or indirect dependencies, however often shared ones are walked again |
| `Net.PassReportsFailureIff` | src/net/src/main.c:187-242 | a pass returns non-zero if and only if some failing interface is listed before all that depend on it |
| `Net.NestedFailureIsLost` | src/net/src/main.c:187-200 | for any two names, a failing interface listed after one that depends on it leaves the return code zero |
| `DepOrder.VisitedIff` | src/net/src/main.c:222-251 | a name is visited if and only if it is listed or below a listed one |
| `Net.RunnableKeepsOrder` | src/net/src/main.c:206-214 | leaving out interfaces without the action keeps each of the two dependency orders and makes no duplicates |
| `Net.Process.constructor` | src/net/src/main.c:26-33 | a process starts with the files on disk, an empty visited list and a zero count |
| `Net.Process.AddIf` | src/net/src/main.c:35-45 | the name is appended to the visited list |
| `Net.Process.FindIf` | src/net/src/main.c:47-59 | the search finds a name if and only if it is on the list |
| `Net.Process.SaveDep` | src/net/src/main.c:71-99 | the name is on record once afterwards, other generations are untouched, and the count goes up exactly when a line was written |
| `Net.Process.Deps` | src/net/src/main.c:178-220 | the recursion has the effect of all visits of the walk one after the other, ends, and returns the interface's own code, or zero if it was done before |
| `Net.Process.Finish` | src/net/src/main.c:202-219 | what follows the dependencies records the name and runs the action the first time only |
| `Net.Process.RunAction` | src/net/src/main.c:142-159 | one run is logged, and only a failing pipe is reported |
| `Net.Process.Iter` | src/net/src/main.c:222-251 | a pass does the walk of the whole listing and forgets the visited list; its code is the sum over interfaces first met in the listing itself |
| `Net.Process.RDeps` | src/net/src/main.c:253-274 | the lines of `rdeps` that have the action are run in their order and every return code counts |
| `Net.Process.Deactivate` | src/net/src/main.c:276-291 | teardown runs the bridge, ip and ethtool exits of the recorded lines, in this order, and adds up their codes |
| `Net.Process.Activate` | src/net/src/main.c:293-308 | setup is three passes whose codes add up |
| `Net.Process.ActivateNext` | src/net/src/main.c:473-513 | for every combination of faults, the files, the log and the exit taken are those of the specified run |
| `Net.Process.HandOver` | src/net/src/main.c:497-512 | the second half of a run: set up, save the reversed order if a line was written, make `next` current, drop the request |
| `NetHistory.ActivationMeans` | src/net/src/main.c:293-308 | only the first of the three passes records anything, and all three run in one and the same dependency order |
| `NetHistory.TeardownVisitsDependersFirst` | src/net/src/main.c:253-291 | following the reversed order runs each exit action once, before those of anything depended on, even if action files changed since |
| `NetHistory.RunHandsOver` | src/net/src/main.c:473-513 | however a run ends, `gen` changes only to what `next` held, after teardown and setup reported success, and `next` goes only once `gen` equals it |
| `NetHistory.RunMeans` | src/net/src/main.c:473-513 | a run that stops before setup changes no file; any other leaves the whole order on record and `rdeps` as its outcome and the earlier tries decide |
| `NetHistory.HistoryKeepsInv` | src/net/src/main.c:473-513 | over every history of publishing, editing and runs with any faults, records are complete or empty, `gen` and `next` name published generations and no request is forgotten |
| `NetHistory.TeardownCompleteIff` | src/net/src/main.c:501-504 | in every history, teardown of the generation in use follows what the first run that tried it left: the full reversed order if and only if that got as far as saving it, the text of a failed reversal, or nothing after a failed setup |
| `NetHistory.RetryHistory` | src/net/src/main.c:497-504 | for any generation whose first setup fails and whose second succeeds there is a history after which nothing of it is torn down |
| `NetHistory.RetryLosesTeardown` | src/net/src/main.c:501-504 | such a history exists with an interface that has an exit action |
| `NetLog.TeardownCalls` | src/net/src/main.c:253-291 | in every run that tears a generation down, each of the three exit actions is run exactly as often as lines on record have it, once each if the lines differ, dependers first if the lines are |
| `NetLog.SetupCalls` | src/net/src/main.c:222-308 | in every run that sets a generation up, each of the three init actions is run once for every interface that has it, dependencies first; `deps`, `rdeps` and `admin-state` are no interfaces |
| `NetLog.NothingElseRuns` | src/net/src/main.c:473-513 | no exit action of another generation than the current one and no init action of another than the next is run, and none at all if the run stops before |
| `NetLog.RunIsStaged` | src/net/src/main.c:276-308 | all bridge exits come before the ip exits, those before the ethtool exits, then come the ethtool, ip and bridge inits, in this order |
| `NetLog.TeardownFailsIff` | src/net/src/main.c:253-291 | a run ends for a failed teardown if and only if teardown is reached and some recorded exit action for a pipe fails |
| `NetLog.SetupFailsIff` | src/net/src/main.c:187-308 | a run ends for a failed setup if and only if setup is reached and some interface listed before all that depend on it has an init action that cannot be resolved, or one for a pipe that fails |
| `NetLog.TeardownInHistory` | src/net/src/main.c:253-291 | over every history, a generation whose first run saved its order is torn down by running each exit action of each of its interfaces once, dependers first |
| `ArList.DenseSplit` | src/profeth/src/app_utils.c:88-130 | an array whose live cells come first is its entries followed by free cells only |
| `ArList.MoveDown` | src/profeth/src/app_utils.c:112-121 | moving a live cell over the free ones before it changes neither the entries nor their order |
| `ArList.FindLive` | src/profeth/src/app_utils.c:112-121 | the inner search stops at the first live cell behind a position, or at the end |
| `ArList.Compact` | src/profeth/src/app_utils.c:108-126 | compaction, with its early break, keeps the entries in order and leaves the live cells first, for any array length |
| `ArList.Iterator.constructor` | src/profeth/src/app_utils.c:77-86 | an iterator starts before the first cell, unmodified |
| `ArList.Iterator.Next` | src/profeth/src/app_utils.c:88-130 | the iterator finds an entry if and only if the next cell is live; nothing changes until the end, where deleted cells are squeezed out and the entries kept |
| `ArList.Iterator.DeleteCurrent` | src/profeth/src/app_utils.c:145-154 | exactly the current cell is freed and the iterator remembers it; at the end nothing happens |
| `ArEvents.UpdateLive` | src/profeth/src/app_utils.c:60-64 | changing a live cell of a dense array changes that entry and keeps the array dense |
| `ArEvents.AppendLive` | src/profeth/src/app_utils.c:35-52 | filling the first free cell of a dense array appends an entry and keeps it dense |
| `ArEvents.MidwayStep` | src/profeth/src/sampleapp_common.c:1572-1581 | one turn of the loop handles one more entry and leaves the cells behind it untouched |
| `ArEvents.MidwayEnd` | src/profeth/src/sampleapp_common.c:1572-1581 | after the last turn the live cells are the filtered list, with gaps only if something was deleted |
| `EventMachine.AfterEventMembers` | src/profeth/src/sampleapp_common.c:1562-1582 | handling an event leaves exactly the ARs whose handler did not end them, each without that event and with its others |
| `EventMachine.AfterEventDistinct` | src/profeth/src/sampleapp_common.c:1562-1582 | distinct ARs stay distinct |
| `EventMachine.HandlerRunsOnce` | src/profeth/src/sampleapp_common.c:1572-1581 | the handler runs once for each AR that has the event pending and never for another |
| `EventMachine.ReachableInv` | src/profeth/src/sampleapp_common.c:226-255 | in every reachable state ARs are real, distinct and fit the array, and every event pending on one is in the global word |
| `EventMachine.NoEventLost` | src/profeth/src/sampleapp_common.c:1693-1723 | an event pending when the loop goes to wait wakes it, and its handler has run for that AR by the time the loop waits again, whatever callbacks come in between |
| `EventMachine.AlarmsAreSpaced` | src/profeth/src/sampleapp_common.c:1256-1287 | in every run there is a confirmation or a handled abort between any two alarms, and every alarm a step sends goes to the first of the ARs connected before it, so none goes out while none is connected |
| `EventMachine.AlarmIsSentIff` | src/profeth/src/sampleapp_common.c:1256-1287 | in every reachable state alarms are allowed if and only if all alarms sent are released, and the timer phase sends one, to the first AR, if and only if there was a tick, one is asked for, some AR is connected and all are released, and adds nothing else |
| `EventMachine.AlarmsAreReleased` | src/profeth/src/sampleapp_common.c:850-870 | a confirmation, or an abort that is handled, releases all alarms |
| `EventFate.RunKeepsOrSettles` | src/profeth/src/sampleapp_common.c:1562-1582 | in every state and run, an event pending on an AR stays pending until its handler, or that of an abort, has run for that AR |
| `EventFate.HandledOrAborted` | src/profeth/src/sampleapp_common.c:1693-1723 | an event pending in any reachable state, wherever the loop is, has been handled or its AR aborted by the second time the loop waits |
| `EventFate.AbortDropsIff` | src/profeth/src/sampleapp_common.c:1718-1722 | the abort phase drops exactly the events of those ARs whose abort it handles, and calls no handler for them |
| `EventFate.DroppedIff` | src/profeth/src/sampleapp_common.c:1693-1723 | in a round under way, an event ends neither handled nor pending if and only if its phase is over or was not due, the round began with an abort, and its AR has an abort pending when aborts are handled |
| `EventFate.AlarmIsDropped` | src/profeth/src/sampleapp_common.c:1693-1723 | for any AR there is a turn of the main loop, with its callbacks where the loop makes them, in which an alarm arrives, is pending, and at the end is pending no more without having been handled |
| `Callbacks.CallbacksSignal` | src/profeth/src/sampleapp_common.c:226-330 | in every reachable state, each of the four callbacks for an AR puts its own event into the global word and makes it pending if the AR is connected, or if it is the one that connects and there is room; no other event and no other AR is affected |
| `Callbacks.CallbackIsServed` | src/profeth/src/sampleapp_common.c:1693-1723 | every callback for a connected AR, and every one that connects it, wherever the loop is, ends in its handler or an abort of the AR by the second wait |
| `App.App.constructor` | src/profeth/src/sampleapp_common.c:130-155 | the application starts with no AR, no event and alarms allowed |
| `App.App.IsConnected` | src/profeth/src/sampleapp_common.c:125-128 | looking at the first cell tells whether any AR is connected |
| `App.App.AddArep` | src/profeth/src/app_utils.c:35-52 | a new AR goes to the end of the list with its event, or nowhere if the array is full |
| `App.App.Seek` | src/profeth/src/sampleapp_common.c:232-243 | the search loop stops at the first entry of the AR, or at the end, and changes nothing |
| `App.App.EventSet` | src/profeth/src/sampleapp_common.c:226-255 | an event is added to the AR's own entry, or with a new entry if asked for and possible, and always to the global word |
| `App.App.HandleEventAr` | src/profeth/src/sampleapp_common.c:1562-1582 | handling with in-place deletion and compaction is a filter of the list with one handler call per pending AR, and clears the event from the global word |
| `App.App.NextEntry` | src/profeth/src/app_utils.c:88-130 | in the middle of handling, the iterator goes to the next entry as it was at the start, or to the end |
| `App.App.HandleCurrent` | src/profeth/src/sampleapp_common.c:1574-1580 | one entry is cleared and perhaps freed, its handler called exactly if the event was pending |
| `App.App.EventClr` | src/profeth/src/app_utils.c:66-75 | the event is taken off one entry, and the answer tells whether it was there |
| `App.App.Deliver` | src/profeth/src/sampleapp_common.c:226-255 | every callback is one step of the state machine |
| `App.App.PhaseAr` | src/profeth/src/sampleapp_common.c:1697-1717 | handling one AR event in the loop is one step of the state machine |
| `App.App.PhaseTimer` | src/profeth/src/sampleapp_common.c:1532-1551 | the timer phase is one step of the state machine followed by the callbacks of the stack's periodic work |
| `App.App.HandleAlarmDemo` | src/profeth/src/sampleapp_common.c:1256-1287 | an alarm is sent only when allowed and connected, to the first AR, and forbids the next |
| `App.App.HandlePeriodic` | src/profeth/src/sampleapp_common.c:1549-1550 | periodic work is a run of the state machine over the callbacks it makes |
| `App.App.PhaseAbort` | src/profeth/src/sampleapp_common.c:1718-1722 | the abort phase is one step of the state machine, and allows alarms again |
| `App.App.Round` | src/profeth/src/sampleapp_common.c:1693-1723 | a round of the main loop is a run of the state machine from any waiting state, whatever the round before it was about |
| `App.App.Turn` | src/profeth/src/sampleapp_common.c:1693-1723 | callbacks while the loop waits, and a round exactly if they left anything to do, are the run of the state machine that the turn stands for |
| `App.LoopForever` | src/profeth/src/sampleapp_common.c:1693-1723 | after any number of rounds with any callbacks in between, the application is where the run those turns stand for leads from the start, so everything proved of runs holds of it |
| `LostAlarm.LosesAlarm` | src/profeth/src/sampleapp_common.c:1693-1723 | the application itself, after the turn in which an alarm arrived, has no AR left and has not handled it |
| `Subslots.LookupIsContents` | src/profeth/src/app_utils.c:786-807 | in a sound slot, looking up a non-zero number gives what the map of used cells gives |
| `Subslots.PlugAdds` | src/profeth/src/app_utils.c:719-760 | plugging an absent number adds it to the map, and fails exactly when as many are plugged as there are cells |
| `Subslots.PullRemoves` | src/profeth/src/app_utils.c:762-784 | pulling removes exactly that number and frees one cell if it was there |
| `Subslots.ZeroIsFoundIff` | src/profeth/src/app_utils.c:786-807 | number 0 is found if and only if some cell is free |
| `Subslots.PlugAgainIsSeenIff` | src/profeth/src/app_utils.c:719-760 | a number plugged twice is seen with its new submodule if and only if the first free cell comes before the old one |
| `Subslots.CellsAreAMap` | src/profeth/src/app_utils.c:719-807 | any sequence of plugging absent numbers and pulling leaves the cells equal to a bounded map, and lookup agrees with it |
| `Subslots.ReplugMeans` | src/profeth/src/sampleapp_common.c:651-782 | once the old submodule is pulled, the number maps to the new one if that was plugged and fits, and to nothing otherwise; no other number is affected |
| `Subslots.FirstPlugStays` | src/profeth/src/app_utils.c:719-807 | in a slot that only sees plugging, lookup finds for every number what was first plugged under it, whatever came later, and nothing if that did not fit |
| `Subslots.Table.constructor` | src/profeth/src/app_utils.c:719-760 | a new table is sound and empty in every slot |
| `Subslots.Table.SubslotGet` | src/profeth/src/app_utils.c:786-807 | the loop finds the first cell with the number, used or not, and nothing outside the slots |
| `Subslots.Table.PlugSubmodule` | src/profeth/src/app_utils.c:719-760 | the first free cell of the slot is filled, or nothing changes; other slots never do |
| `Subslots.Table.PullSubmodule` | src/profeth/src/app_utils.c:762-784 | it succeeds if and only if the slot is below both limits and the number is found, and then clears that cell only |
| `Subslots.Table.Replug` | src/profeth/src/sampleapp_common.c:651-782 | for every answer of the stack, every slot and number, the slot is that after the pull and the plug that took place, where slots at or past the number of subslots see no pull; below both limits and with the pull done, it stays sound and maps the number to the new submodule |
| `Subslots.Table.ReplugBeyond` | src/profeth/src/sampleapp_common.c:651-782 | plug indications for a slot at or past the number of subslots only ever plug, whatever the stack did |
| `Subslots.StaleSubmodule` | package/p-net/Config.in:21-29 | with 5 slots and 3 subslots, the second submodule plugged under a number of slot 3 or 4 is never seen |
| `NetifNames.FieldsOfJoin` | src/profeth/src/app_utils.c:439-534 | splitting at commas undoes joining names that have none |
| `NetifNames.AcceptedIff` | src/profeth/src/app_utils.c:439-534 | joined names are accepted if and only if there is a port, they are not two, not more than ports plus one, and none is empty |
| `NetifNames.GetNetifNamelist` | src/profeth/src/app_utils.c:439-534 | the list is accepted exactly when it should be; then the buffers hold its fields and the number of ports is one less, or a single name is used twice |
| `NetifNames.Scan` | src/profeth/src/app_utils.c:459-482 | the loop over characters counts all fields and stores those that have a buffer |
| `Lyx.GetOp` | src/confd/src/lib/lyx.c:7-24 | walking up the parents finds the nearest operation: it is create, delete or replace if and only if the first name given is that word |
| `Lyx.OpIsFirst` | src/confd/src/lib/lyx.c:7-24 | each of the three operations is read exactly if its name is the first one given, and any other name is no operation |
| `Lyx.OpInherited` | src/confd/src/lib/lyx.c:7-24 | an operation on a node decides, otherwise its parents' does |
| `Lyx.RecordedIsRead` | src/confd/src/lib/lyx.c:41-81 | old and new value of a recorded change are read back |
| `Lyx.ModifiedIffExplicit` | src/confd/src/lib/lyx.c:41-81 | a recorded leaf counts as modified if and only if its old or its new setting is explicit rather than a default |
| `Addresses.EntryIsChange` | src/confd/src/confd/ietf-interfaces.c:355-390 | the commands of a diff entry are the ones that take that address from its old prefix length, or none, to its new one, or none |
| `Addresses.ChangeStep` | src/confd/src/confd/ietf-interfaces.c:355-390 | those commands succeed and change that address only |
| `Addresses.AddressIsThere` | src/confd/src/confd/ietf-interfaces.c:334-390 | creating an address that is there fails, but for 127.0.0.1/8 and ::1/128 on `lo` |
| `Addresses.DiffAddrsCorrect` | src/confd/src/confd/ietf-interfaces.c:392-405 | entries that record the differences, in any order and with unchanged ones among them, turn the old addresses into the new ones without a failing command |
| `Addresses.SetConfCorrect` | src/confd/src/confd/ietf-interfaces.c:407-420 | after a flush, adding the listed addresses gives exactly those, without a failing command |
| `Addresses.FamilyCorrect` | src/confd/src/confd/ietf-interfaces.c:422-439 | over any change of a family (create, delete, prefix change, disable, enable, re-create) flush and commands leave exactly the addresses configured if it is enabled and none if not, and never touch the other family |
| `Addresses.ReenabledFamily` | src/confd/src/confd/ietf-interfaces.c:407-439 | a family whose `enabled` is replaced by true, as the diff writes it, gets all its configured addresses back |
| `FreshAddresses.NothingToKeep` | src/confd/src/confd/ietf-interfaces.c:392-439 | run on a device without its old addresses, the commands for a family that stays enabled give the configured addresses only if it had none before |
| `FreshAddresses.FreshIface` | src/confd/src/confd/ietf-interfaces.c:881-892 | the same of an interface: its address commands fail or give other addresses unless every enabled family had none |
| `Kernel.ExitRuns` | board/common/rootfs/sbin/dagger:33-59 | exit scripts in an order where nothing goes before what it would take along succeed, and remove exactly the deleted devices and the veth ends meant to go with them |
| `Kernel.AboveIsLost` | board/common/rootfs/sbin/dagger:33-59 | if the exit scripts all succeed, whatever a deleted device takes along, directly or not, is gone |
| `Kernel.TooLateFails` | board/common/rootfs/sbin/dagger:33-59 | deleting a device after one that took it along makes the run abort |
| `InterfaceScripts.ConfDiffRecords` | src/confd/src/confd/ietf-interfaces.c:838-846 | a configuration marked as created reads like a diff that creates all of its addresses |
| `InterfaceScripts.FamilyRuns` | src/confd/src/confd/ietf-interfaces.c:422-439 | the address commands of an interface take a family from its flushed old addresses, or from none after recreation, to the new ones |
| `InterfaceScripts.InitRuns` | src/confd/src/confd/ietf-interfaces.c:805-901 | an init script run in a kernel that is ready for it gives the interface its kind, its addresses, its administrative state and its bridge, and touches nothing else but a peer it creates |
| `Netdag.Compiler.constructor` | src/confd/src/confd/ietf-interfaces.c:903-917 | a new generation has a node for every configured and every changed interface, and nothing else |
| `Netdag.Compiler.AddDep` | src/confd/src/confd/dagger.c:68-72 | a dependency is linked once; linking it again fails |
| `Netdag.Compiler.GenVeth` | src/confd/src/confd/ietf-interfaces.c:579-605 | a marked end only depends on its peer; an unmarked one makes the pair and marks its peer |
| `Netdag.Compiler.GenVlan` | src/confd/src/confd/ietf-interfaces.c:607-653 | a VLAN depends on its parent, is added only if an outer tag is read, and is refused for an unknown tag type |
| `Netdag.Compiler.BridgeLinks` | src/confd/src/confd/ietf-interfaces.c:742-761 | a bridge port depends on its bridge |
| `Netdag.Compiler.GenDiffAddrs` | src/confd/src/confd/ietf-interfaces.c:392-405 | the loop emits the commands of all entries, or of those before the first that lacks its address or prefix length, and then fails |
| `Netdag.Compiler.GenIpAddrs` | src/confd/src/confd/ietf-interfaces.c:422-439 | a family that is not enabled is flushed on the spot and gets no commands; otherwise all addresses are set or the differences applied |
| `Netdag.Compiler.AfspecAdd` | src/confd/src/confd/ietf-interfaces.c:696-722 | creation succeeds exactly for kinds and tags that are supported, with the commands, the dependency and the mark of the kind |
| `Netdag.Compiler.AfspecSet` | src/confd/src/confd/ietf-interfaces.c:724-740 | an update succeeds exactly for supported kinds and links the parent of a VLAN |
| `Netdag.Compiler.IfaceDel` | src/confd/src/confd/ietf-interfaces.c:782-803 | the exit script deletes a dynamic device and takes down and flushes a fixed one |
| `Netdag.Compiler.GenLink` | src/confd/src/confd/ietf-interfaces.c:848-879 | the link part succeeds exactly if device, bridge link and update are supported, writes its lines up to what fails, and links exactly the dependencies |
| `Netdag.Compiler.WriteInit` | src/confd/src/confd/ietf-interfaces.c:881-892 | the address lines follow, up to the first that cannot be made; the line that takes the device up comes only after all of them |
| `Netdag.Compiler.GenInit` | src/confd/src/confd/ietf-interfaces.c:848-894 | an init script is written in full if and only if the interface is supported; otherwise its beginning stays |
| `Netdag.Compiler.GenIface` | src/confd/src/confd/ietf-interfaces.c:805-901 | handling one interface succeeds exactly if it is supported, writes its scripts and dependencies, and never anything for others; if refused, the beginning of its script stays |
| `Netdag.Compiler.IfChange` | src/confd/src/confd/ietf-interfaces.c:919-977 | in any order of the interfaces, it succeeds if and only if each is supported; then each has the scripts and dependencies its own diff asks for and the others none; otherwise all before the first refused one have theirs, that one the beginning of its script, and those behind it nothing |
| `Netdag.SupportedIff` | src/confd/src/confd/ietf-interfaces.c:848-892 | an interface is supported if and only if no step of making its script fails |
| `Netdag.SupportedIsWritten` | src/confd/src/confd/ietf-interfaces.c:848-892 | what is written of a supported interface, and the line that takes it up, are its whole script |
| `Commit.ChangeIsReadable` | src/confd/src/confd/ietf-interfaces.c:957-966 | every interface of a recorded change is deleted or configured, and diffed once |
| `Commit.ChangeIsSupported` | src/confd/src/confd/ietf-interfaces.c:805-901 | no interface of a change between well-formed configurations is refused by the compiler |
| `Commit.ChangeCompiles` | src/confd/src/confd/ietf-interfaces.c:919-977 | for every recorded change there is an output of that form |
| `Commit.SkipsMeans` | src/confd/src/confd/dagger.c:105-113 | a device is marked if and only if an earlier, unmarked veth names it as its peer |
| `Commit.OneEndIsSkipped` | src/confd/src/confd/ietf-interfaces.c:579-605 | of the two ends of a new pair exactly one is marked, in whatever order they come, and a new end whose peer stays is not |
| `Commit.EdgesAre` | src/confd/src/confd/ietf-interfaces.c:579-761 | a dependency link goes to a VLAN's parent, a port's bridge or a skipped end's peer, and to nothing else |
| `Commit.DepsAreAcyclic` | src/confd/src/confd/ietf-interfaces.c:919-977 | the dependency links written for a change form no cycle |
| `CommitRun.FlushesAre` | src/confd/src/confd/ietf-interfaces.c:429-433 | the flushes done on the spot clear exactly the families that are not enabled, of interfaces that stay |
| `CommitRun.InitPhase` | src/confd/src/confd/ietf-interfaces.c:848-892 | in any dependency order in which veth ends with another peer come after it, the init scripts succeed and bring up exactly what they should, one interface after the other |
| `CommitRun.CommitCorrect` | src/confd/src/confd/ietf-interfaces.c:805-977 | flushes, exit scripts and init scripts of any recorded change, also of veth peers, take the kernel from the old configuration to the new one without a failing command, if removals are orderly and ends with another peer are made again by it |
| `CommitFailures.DisorderFails` | src/confd/src/confd/ietf-interfaces.c:763-803 | a removal that takes along what is not meant to go makes a command fail or loses a device that is still configured |
| `CommitFailures.NewPeerIsNew` | src/confd/src/confd/ietf-interfaces.c:763-780 | if the kernel reaches the new configuration, the other peer a veth got was not there before |
| `CommitFailures.OldPeerGoes` | src/confd/src/confd/ietf-interfaces.c:579-605 | and its old peer is removed, since making an end that is there fails |
| `CommitFailures.RemadeAfterMaker` | src/confd/src/confd/ietf-interfaces.c:579-605 | and the end comes after its new peer, which makes it |
| `CommitFailures.RemadeKeepsNone` | src/confd/src/confd/ietf-interfaces.c:392-439 | and it had no addresses to keep, since only differences are applied to the end made again |
| `CommitFailures.NoneLeaves` | src/confd/src/confd/ietf-interfaces.c:742-761 | and no port has left a bridge that stays, since membership never ends |
| `CommitTheorems.CommitCorrectIff` | src/confd/src/confd/ietf-interfaces.c:763-858 | a committed change brings the kernel to the new configuration, links, addresses, administrative states and bridges, if and only if removals are orderly, each veth end with another peer loses its old one to removal, has no addresses to keep and comes after its new one, and no port leaves a bridge that stays |
| `CommitTheorems.RemovedLateFails` | src/confd/src/confd/ietf-interfaces.c:782-803 | removing a device after one that takes it along aborts the run |
| `CommitTheorems.RemovingVethFails` | src/confd/src/confd/ietf-interfaces.c:782-803 | removing both ends of a veth pair aborts the run, in any order |
| `CommitTheorems.ExchangedPeerFails` | src/confd/src/confd/ietf-interfaces.c:763-780 | for every change and in any order, a veth whose peer becomes one that was there before gets no link command, and the kernel does not reach the new configuration |
| `CommitTheorems.LeavingABridgeFails` | src/confd/src/confd/ietf-interfaces.c:742-761 | for every change and in any order, a port that should leave a bridge which stays is still a port of it whenever the commands succeed, and the kernel does not reach the new configuration |
| `CommitTheorems.ModificationLinks` | src/confd/src/confd/ietf-interfaces.c:763-858 | a VLAN whose parent or tag changed is deleted once and added once, first thing; any other modification, also of a veth's peer, emits no link add or delete |
| `CommitTheorems.OneEndMakesThePair` | src/confd/src/confd/ietf-interfaces.c:579-605 | of the two ends of a new pair exactly one has an init script that starts with the one `link add`, and the other has none and the dependency link to it |
| `CommitTheorems.KernelTracksConfig` | src/confd/src/confd/ietf-interfaces.c:919-977 | over every history of committed changes, devices, addresses, administrative states and bridges in the kernel are those configured as long as the changes meet that condition |
| `CommitTheorems.KernelPartsFromConfigIff` | src/confd/src/confd/ietf-interfaces.c:919-977 | the first change that does not meet it is exactly where kernel and configuration part |
| `RemovalOrder.TouchedAfterParent` | src/confd/src/confd/ietf-interfaces.c:607-653 | a VLAN in the diff of a change comes after its parent in the order that change is set up |
| `RemovalOrder.OrderlyIff` | src/confd/src/confd/ietf-interfaces.c:957-966 | over every history, removals are orderly if and only if a veth end goes only when its peer is made again and each VLAN a removed device would take along goes too and was set up after that device by the change before |
| `RemovalOrder.FollowsIff` | src/confd/src/confd/ietf-interfaces.c:919-977 | so a change keeps kernel and configuration together if and only if its removals fit what the change before left, its new veth peers fit and no port leaves a bridge that stays |
| `RemovalOrder.TouchedRemovalsWork` | src/confd/src/confd/ietf-interfaces.c:607-653 | removing any devices but veths always works if every VLAN on them goes too and was touched by the change before, no veth gets another peer and no port leaves a bridge that stays |
| `RemovalOrder.ForgottenOrderIff` | src/confd/src/confd/ietf-interfaces.c:957-966 | removing a VLAN the change before did not touch, with its parent, works if and only if the parent came first in the order that change left, and otherwise aborts |
| `RemovalOrder.ForgottenListingIff` | src/confd/src/confd/ietf-interfaces.c:957-966 | in terms of the listing of that change: it works if and only if the walk meets the parent from what is listed ahead of the node it first meets the VLAN from, or before the VLAN in the walk from that node, which is never so if the node is the VLAN itself; otherwise it aborts |
| `AdminState.ChangedIsSwitched` | src/confd/src/confd/ietf-interfaces.c:848-892 | from any kernel, if the commands of a change succeed, every interface of the diff that stays is up exactly if it is enabled, and a port of its bridge if it has one |
| `AdminState.OtherIsKept` | src/confd/src/confd/ietf-interfaces.c:919-977 | from any kernel, a device that is not in the diff stays up or down |
| `AdminState.RemovedIsDown` | src/confd/src/confd/ietf-interfaces.c:782-803 | from any kernel, a fixed device that leaves the configuration ends down |
| `AdminState.UpTracksConfig` | src/confd/src/confd/ietf-interfaces.c:848-892 | over every history whose commands succeed, whether or not kernel and configuration are in step, every configured or fixed device that is there is up exactly if it is enabled |
| `CommitExamples.RecreatedParentLosesVlan` | src/confd/src/confd/ietf-interfaces.c:822-846 | whenever a VLAN stays while the VLAN below it is recreated, the kernel does not reach the new configuration, in any order |
| `CommitExamples.RetaggingLosesTheUpperVlan` | src/confd/src/confd/ietf-interfaces.c:822-846 | for any three names, changing the tag of the lower of two stacked VLANs is such a change |
| `CommitExamples.RemovingAPairFails` | src/confd/src/confd/ietf-interfaces.c:782-803 | for any two names, a configuration that is just a pair can be asked to go away, and that fails in any order |
| `CommitExamples.SwappingPeersFails` | src/confd/src/confd/ietf-interfaces.c:763-780 | for any four names, two pairs that swap peers are a recorded change, and the kernel does not follow it in any order |
| `CommitExamples.LeavingItsBridgeFails` | src/confd/src/confd/ietf-interfaces.c:742-761 | for any two names, taking a fixed port out of a bridge is a recorded change, and the kernel does not follow it in any order |
| `HistoryExamples.ReplacingAPeerIff` | src/confd/src/confd/ietf-interfaces.c:579-605 | for any three names, giving a veth a new peer in place of the old one works if and only if the new peer is listed before the veth |
| `HistoryExamples.ReplacingLosesAddress` | src/confd/src/confd/ietf-interfaces.c:392-439 | for any three names and any address, giving a veth that keeps the address a new peer is a recorded change, and the kernel does not follow it in any order |
| `HistoryExamples.ForgottenHistory` | src/confd/src/confd/ietf-interfaces.c:957-966 | a history for any three names: create a bridge and a VLAN on it, change only a third interface, remove both; it aborts if and only if the second change listed the VLAN before the bridge |
| `Generations.CleanOrSpent` | src/confd/src/confd/dagger.c:79-152 | over every sequence of changes, the directory is that after as many commits as long as none was abandoned over a current generation, and from then on that generation is spent |
| `Generations.AcceptedIff` | src/confd/src/confd/dagger.c:116-152 | a change is accepted if and only if none was committed before it, or all were since the first that was; it then claims the generation numbered by the commits so far |
| `Generations.CurrentIs` | board/common/rootfs/sbin/dagger:86-106 | the generation in use is that of the last change committed before the first one abandoned over it |
| `Generations.Dagger.constructor` | src/confd/src/confd/dagger.c:116-152 | the directory starts out empty |
| `Generations.Dagger.Claim` | src/confd/src/confd/dagger.c:116-152 | a claim succeeds exactly if nothing is claimed and both links can be made, and otherwise leaves what it has done |
| `Generations.Dagger.RunAbandon` | board/common/rootfs/sbin/dagger:73-84 | abandoning renames the generation that `next` names and forgets it, or fails if there is none |
| `Generations.Dagger.RunEvolve` | board/common/rootfs/sbin/dagger:86-106 | evolving makes the generation that `next` names current if the scripts succeed, and otherwise changes nothing |
| `Generations.Dagger.EvolveOrAbandon` | src/confd/src/confd/dagger.c:86-103 | after a claim, scripts that fail lead to the generation being abandoned |
| `Generations.Dagger.Abandon` | src/confd/src/confd/dagger.c:79-84 | after a claim, the claimed generation is gone and nothing claimed any more |
| `Generations.Dagger.Change` | src/confd/src/confd/ietf-interfaces.c:919-977 | a change is accepted exactly if its claim is, and leaves the directory as its fate says |
| `Candidate.DotSplits` | src/confd/src/confd/ietf-interfaces.c:156-165 | a name with a dot is the part before the last dot, the dot and the part behind, which has none |
| `Candidate.InferAllFits` | src/confd/src/confd/ietf-interfaces.c:83-313 | over any list of changes no leaf that is there is altered, and what is added is what the interface's own name says |
| `Candidate.InferAllCompletes` | src/confd/src/confd/ietf-interfaces.c:269-313 | a changed interface whose name tells its type, or which is physical, has one, a changed veth with a peer leaf has its peer, and a changed VLAN named after an existing parent and a valid tag has parent, tag type and id |
| `Candidate.PeersPointBack` | src/confd/src/confd/ietf-interfaces.c:83-133 | an absent interface appears exactly when a changed veth names it, and points back to the first that does |
| `Candidate.FirstNamingIs` | src/confd/src/confd/ietf-interfaces.c:83-133 | the interface looked up for an absent peer is the first changed one that names it |
| `Candidate.PeerPointsBackIff` | src/confd/src/confd/ietf-interfaces.c:83-133 | a changed veth whose peer was absent gets a veth by that name, which points back to it if and only if it is the first changed one to name it |
| `Candidate.OnePeerForTwo` | src/confd/src/confd/ietf-interfaces.c:83-133 | for any names, two new veths with one absent peer get a peer that points back to the first only |
| `Candidate.InferenceOnlyAdds` | src/confd/src/confd/ietf-interfaces.c:83-313 | all of this at once, and a VLAN whose parent and id were both inferred is named parent, dot, id with an id from 1 to 4095 |
| `NameRules.NumberIsRead` | src/confd/src/confd/ietf-interfaces.c:162-165 | reading the decimal digits of a number, with or without leading zeros, gives the number |
| `NameRules.TypeOfName` | src/confd/src/confd/ietf-interfaces.c:224-267 | the type a name suggests, by its form: physical ports first, `br`, `lag` and `vlan` with a number, `veth` with letters, digits, `_` or `-`, or a dot and a number |
| `NameRules.TypeInferred` | src/confd/src/confd/ietf-interfaces.c:224-267 | over any list of changes, a changed interface without a type gets the one its name suggests, and any other keeps its own |
| `NameRules.VlanInferredIff` | src/confd/src/confd/ietf-interfaces.c:135-222 | over any list of changes, a changed VLAN named after an existing interface, a dot and a text gets its missing parent, tag type and id if and only if the text is a number from 1 to 4095, leading zeros or not |
| `Candidate.Datastore.CandInferType` | src/confd/src/confd/ietf-interfaces.c:224-267 | only a missing type is set, to what the name suggests, physical ports first |
| `Candidate.Datastore.CandInferVeth` | src/confd/src/confd/ietf-interfaces.c:83-133 | only an absent peer of a veth is made, with the type and the peer that point back |
| `Candidate.Datastore.CandInferVlan` | src/confd/src/confd/ietf-interfaces.c:135-222 | only missing leaves of a VLAN are set, from a valid name with an existing parent |
| `Candidate.Datastore.Cand` | src/confd/src/confd/ietf-interfaces.c:269-313 | the loop infers for created and modified nodes in order and leaves the others alone |
| `CommitHook.Core.PostHook` | src/confd/src/confd/core.c:36-65 | changes count up, an abort clears, and the reload point is reached when a DONE brings the count to zero |
| `CommitHook.CommitReloadsOnceAtTheEnd` | src/confd/src/confd/core.c:36-65 | a committed transaction reaches the reload point exactly once, after every module's own DONE callback |
| `CommitHook.AbortReloadsNever` | src/confd/src/confd/core.c:45-47 | an aborted transaction never reaches it, at no point, and leaves the counter at zero |
| `CommitHook.OneReloadPerCommit` | src/confd/src/confd/core.h:69-99 | over every sequence of transactions there are as many reloads as commits and the counter is zero in between |
| `Topology.AddLinkKeepsForm` | test/infamy/topology.py:19-40 | adding a link keeps ports on their own device and edges symmetric |
| `Topology.Build` | test/infamy/topology.py:13-40 | the graph is built exactly when all device kinds are known, has every link, gives devices their kinds, and has no edge but the links and each port on its own device, and no node but their ends |
| `Topology.MatchesItself` | test/infamy/topology.py:58-60 | every well-formed topology without devices of kind `port` has a match, onto itself |
| `Topology.PortFollowsDevice` | test/infamy/topology.py:58-72 | a match sends devices to devices and ports to ports of the device their own device goes to |
| `Topology.Record` | test/infamy/topology.py:43-56 | recording a pair tells exactly whether the code's assertions hold |
| `Topology.MapTo` | test/infamy/topology.py:42-74 | in any order of the pairs no assertion fires, and the mapping is complete and agrees with the match |
| `Topology.TranslationIsFaithful` | test/infamy/topology.py:76-90 | translation is injective, keeps kinds, gives the matched node, and links and only links become links |
| `Topology.OnlyKnownIsTranslated` | test/infamy/topology.py:76-90 | a device or port is translated if and only if the logical topology has it |
| `CommentWriter.StripUndoesComment` | test/infamy/tap.py:88-108 | taking the prefixes off gives the text back |
| `CommentWriter.ReplaceIsComment` | test/infamy/tap.py:104 | replacing newlines prefixes each line that follows one, and one line too many after a final newline |
| `CommentWriter.EmittedIs` | test/infamy/tap.py:93-108 | one write puts out the commented piece, after a prefix if it starts a line |
| `CommentWriter.ChunkingDoesNotMatter` | test/infamy/tap.py:88-108 | for every sequence of writes the output is the commented text of all of them, with one more prefix at the end exactly when the last was empty at the start of a line |
| `CommentWriter.StripUndoesWriting` | test/infamy/tap.py:88-108 | taking the prefixes off the output of any sequence of writes gives the text written |
| `CommentWriter.Writer.constructor` | test/infamy/tap.py:89-91 | a writer starts at the start of a line with no output |
| `CommentWriter.Writer.Write` | test/infamy/tap.py:93-108 | the output stays that of all data so far, however it was cut into pieces |

## Left out

- `Netdag.Compiler.GenInit`: of a script that is left unfinished only whole lines are modelled, not a line cut short.
- `Addresses.AddressIsThere`: addresses are texts, so another spelling of a standard address is another address.
- `Subslots.Table.constructor`: the source clears the table with the rest of the zeroed application state.
- `NetifNames.GetNetifNamelist`: names are strings, so the limit on the length of one name and the check of the buffer's size are not modelled, nor is wrap-around of the 16-bit counters, which the precondition rules out.
- `net`: the order of commands across the `ip` and `bridge` pipes, the mechanics of pipes, shells and symbolic links, write errors of a file that was opened, `ifup` and `ifdown`, and option parsing.
- confd: abandoned transactions are modelled for the directory of generations only; their exit scripts stay in the current generation, which by `Generations.AcceptedIff` no later change leaves, and their flushes are already done.
- confd: forward masks of bridges, sysctl, autoconfiguration and zeroconf scripts.
- confd: `lo` with the addresses the kernel adds to it, link-local addresses, promotion of secondary addresses, loss of IPv6 addresses when a link goes down, two VLANs with one tag on one parent, and what Linux does about a VLAN when its parent goes down or up: taking it along, and refusing to bring it up while the parent is down.
- confd: errors of the datastore during inference, which end it early, and a second pass that may be needed for a VLAN on an inferred peer.
- confd: `core_hook_prio` and whether a reload command succeeds.
- The PROFINET application: handlers that call back into the list while it is iterated, the demo state ring, cyclic data, buttons and logging.
- The topology class: quoting of attributes, dot files that give one port two links (the later one wins before the graph is made), and the matcher itself.
- ietf-system, DHCP, statd, the factory and helper programs, the data tables of the PROFINET application, disk layout scripts and packaging: file handling and tables with easy properties.
