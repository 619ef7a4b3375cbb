# Inotispy: the watch registry and event pipeline, verified

Inotispy watches directory trees through inotify, queues what happens in them per
watched root, and hands the events to clients over ZeroMQ. Its core is shared mutable
state: the table of roots, two indexes of watched directories (by path and by watch
descriptor), one bounded queue per root and the `destroy` and `pause` flags. A single
dispatcher thread, recursive tree walkers, destroyers and the memory cleaner change
that state under one mutex which they take and release many times per operation.

This project models that core in Dafny and proves what holds whatever the threads do.
`dafny verify dfyconfig.toml` checks it all.

## How it is laid out

Three layers share one set of value functions.

| module | content |
|---|---|
| `CString`, `Tables`, `Flags` | `strstr` and path relations; the registry as a value and what each critical section does to it |
| `Threads` | the step system: every `inotify_mutex` section is one step, any number of walkers, destroyers and cleaners interleave with the dispatcher |
| `Sections` | what each of those steps does, by the fields of the state |
| `Safety` | the invariant of every step, and safety over whole runs: index agreement, root antichain, root lifecycle, scratch directories |
| `Owners`, `Unwatch`, `Leftovers` | when the root lookup finds the right root; the exact steps that spoil an unwatch and its completeness without them; what any unwatch leaves behind, exactly |
| `Scenario`, `Misfiled`, `SlashRoot` | concrete runs in which an unwatch is spoilt, by a misfiled event and by a watched `/` |
| `Indexes`, `Descriptors` | exactly which steps part the two indexes, and which descriptors are given back to the kernel |
| `Coverage`, `Spellings`, `Finish` | walkers cover the trees of all live roots although they prune and other roots are unwatched; coverage by descriptors; walkers come to their end |
| `Queues` | FIFO conservation, bounds, pause silence |
| `Progress` | no thread is ever stuck; destroyers end |
| `Wire`, `Daemon`, `Effects` | the kernel's byte layout; the registry as a class with the source's loops, proved against `Tables`; what a record does, by the digits of its mask |
| `Batch`, `Alone` | whole buffers and whole unwatches: what they do, and that they are runs of the step system |
| `Dump` | dump file and restore loop |
| `Paths`, `Answers`, `Requests` | in-place string trimming; what each call answers and does; request handling |

A Root is an index into a sequence that only grows, so that it keeps its identity after
it has left the table. The iteration order of a hash table is a parameter: results hold
for every order. Walkers and destroyers are split as finely as the code unlocks: a
destroyer's lookup, its `inotify_rm_watch` and its removal are three steps, a watch
request's check and its insertion are two, a kernel record takes up to three, and so does
a pause: its flag, the unlocked root lookup of the flush, and the dequeue. Reading a queue
is such a lookup and a dequeue. The mark that starts an unwatch is set without the mutex
and is a step of its own. The restore
loop at start-up consists of watch requests, so runs from the empty registry include it.

## What the code does that its comments do not say

The model follows the code.

- Root lookups search with `strstr` at any position. `Owners.OwnerLookup` says exactly
  when that finds the root above a directory. `/a/b` and `/b` can be watched together,
  and events in `/a/b/c` may then be filed under `/b`; `Misfiled.UnwatchLeavesStray` is a
  run in which that leaves `/a/b/c/d` indexed after `/a/b` has been unwatched.
- `/` is accepted beside other roots (unless one has an empty path component), shuts out
  every later root, and cannot be unwatched: its key becomes the empty string. Beside it
  an unwatch goes wrong both ways: `SlashRoot.SlashSpoilsUnwatch` is a run in which `/a/x`
  is still indexed when the unwatch of `/a` ends, while `/a` is not and, with all walkers
  done, stays out of the index although `/` is watched. An unwatch takes directories from
  other roots exactly if `/` is watched (`Coverage.SharedOnlyUnderSlash`), and without it
  every other root keeps its tree (`Coverage.LiveRootsAreCovered`).
- The event path directly under `/` is `//`; the name is lost.
- A path of two or more slashes and nothing else makes the trimming loop read in front of
  its buffer; so does unwatching the empty path.
- A watch request without a path is answered "not absolute", since the missing pointer is
  formatted before it is tested.
- The disappearance of a directory that is not indexed is not queued.
- An empty message, or one starting with NUL, gets no reply.
- `count: -1` means one event, and any integer `rewatch` other than -1 means true.
- Pausing or reading a root whose destroyer has already released its queue is undefined,
  and the root is looked up without the mutex, so the queue may be released between the
  lookup and the dequeue (`Progress.ReleaseInTheGap`). `Progress.DispatcherCanStep` shows
  that the dequeue is the only section before which the dispatcher can be stopped.
- A relative or missing path of a watch request is logged with a format whose argument is
  missing; a queue-size request without a path unlocks a mutex that it does not hold; and
  every dump of the roots frees a pointer that was never set. None of the three is modelled.
- A destroyer does not give the root's own descriptor back to the kernel; it is the only
  one that leaves the index without (`Descriptors.GivenBackButForRoots`).
- Exactly two steps part the indexes: registering a path that is still indexed under
  another descriptor, and a destroyer's removal of a path registered anew since its
  lookup. The second cannot happen as long as no event is misfiled and `/` is not watched.

## Model

| member | source | states |
|---|---|---|
| `CString.StrStr` | src/inotify.c:864-864 | the first position at which the needle occurs, none exactly if it occurs nowhere |
| `CString.TmpTailByStrStr` | src/inotify.c:264-274 | the handler's pointer test recognises exactly the strings whose first `.~tmp~` is their end |
| `CString.UnderComparable` | src/inotify.c:829-887 | two directories above one path are comparable |
| `Tables.IntersectsIsCommonBit` | src/inotify.c:539-539 | the mask test holds exactly if event and root mask share a binary digit |
| `Flags.FlagDigits` | src/inotify.c:223-258 | each flag test of the handler is the test of one binary digit: 4, 6, 7, 8, 9, 14, 15, 30 |
| `Tables.RefusalIsClear` | src/inotify.c:1158-1210 | a watch is admitted exactly if neither path, extended by a slash, occurs in the other for any root, and `/` is not watched; for every iteration order |
| `Tables.EventPathIsChild` | src/inotify.c:356-360 | the event path is the child's path exactly if the directory is not `/` |
| `Sections.WatchCheckSays` | src/inotify.c:1153-1209 | a watch is admitted under its path without a trailing slash exactly if no root is `/`, is that path, extends it or is extended by it |
| `Sections.WatchInsertSays` | src/inotify.c:1212-1249 | if the directory opens a fresh Root enters the table and the count and a walker starts at it, otherwise nothing |
| `Sections.UnwatchSays` | src/inotify.c:1128-1139 | marks a watched, unmarked Root and starts its destroyer, else nothing |
| `Sections.PauseSays` | src/inotify.c:1071-1113 | a pause step sets the flag of the path's Root, an unpause step clears it, and nothing else of any Root changes |
| `Sections.FindSays` | src/inotify.c:797-809 | the unlocked lookup before a dequeue, all events for a flush |
| `Sections.TakeSays` | src/inotify.c:757-790 | the queue found loses as many events from its front as were asked for |
| `Sections.RewatchSays` | src/inotify.c:1654-1664 | a cleanup walker starts at an unmarked root |
| `Sections.EventLookupSays` | src/inotify.c:276-354 | an event is taken up exactly if it is looked at and its root is live and unpaused |
| `Sections.EventActSays` | src/inotify.c:373-536 | by digits, which walker starts, what leaves the indexes and which event is dropped |
| `Sections.EventQueueSays` | src/inotify.c:538-544 | which event with which fields joins the root's queue |
| `Sections.WalkBeginSays` | src/inotify.c:1315-1338 | a walker visits its start unless its root is marked |
| `Sections.WalkVisitSays` | src/inotify.c:1365-1455 | exactly when a visit registers its directory, in both indexes, and that it turns back otherwise |
| `Sections.WalkScanSays` | src/inotify.c:1465-1521 | the next subdirectory by its path, or the directory is closed |
| `Sections.DestroyBeginSays` | src/inotify.c:988-1005 | the queue is released and the paths are snapshotted |
| `Sections.DestroySweepSays` | src/inotify.c:1007-1041 | keys below the root are looked up, given back and removed, others passed over |
| `Sections.DestroyEndSays` | src/inotify.c:1044-1065 | the root's watch, its table entry and its count go |
| `Sections.CleanSays` | src/inotify.c:1687-1756 | of a snapshot the absolute, indexed keys that are no directories go, given back |
| `Safety.RunKeepsInv` | src/inotify.c:948-1522 | every step of every thread keeps the invariant, so it holds all along any run |
| `Safety.IndexAgreement` | src/inotify.c:1442-1455 | in every reachable state a path entry p to w has w.path = p and w is the descriptor entry of w.wd, every descriptor entry carries its own wd, and distinct paths have distinct wds |
| `Safety.ScratchExcluded` | src/inotify.c:1365-1375 | no reachable state indexes an rsync scratch directory, so the handler's second test for one never succeeds |
| `Safety.RootAntichain` | src/inotify.c:1165-1240 | in every reachable state no root plus slash occurs in another root, across the unlocked gap between check and insert; all roots are absolute, so none is `EOL` |
| `Safety.RootLifecycle` | src/inotify.c:948-1069 | in every reachable state: one Root per path, the counter is the table size, no two destroyers share a Root, each destroyer's Root is the one in the table, a Root in the table is marked exactly if a destroyer is at work on it, unmarked Roots are in the table |
| `Safety.HandledRootLives` | src/inotify.c:336-354 | while an event is handled across lock gaps, its root stays unmarked, unpaused, in the table and with its queue |
| `Safety.StartsBelowRoot` | src/inotify.c:1324-1331 | the length check at the start of a walker never turns one away |
| `Safety.MarksStay` | src/inotify.c:959-959 | Roots are only appended, their paths are fixed, and a destroy mark once set is set in every later state |
| `Safety.OneDestroyerEver` | src/inotify.c:1128-1139 | over a whole run at most one destroyer is started for a Root |
| `Safety.PruneIsExact` | src/inotify.c:430-534 | forgetting a vanished directory takes out exactly the vanished paths and their descriptors |
| `Owners.OneRootAbove` | src/inotify.c:829-887 | in an antichain no path lies under two roots |
| `Owners.OwnerLookup` | src/inotify.c:840-887 | the lookup returns the one root above the path, or none if there is none, in every iteration order, if and only if every root string plus slash occurring in the path is a prefix of it |
| `Owners.AmbiguousExample` | src/inotify.c:864-864 | two roots that may be watched together and a directory the scan files under the wrong one |
| `Owners.SlashCollides` | src/inotify.c:909-943 | `/` is admitted beside other roots exactly if none holds an empty component; nothing is admitted beside `/` |
| `Owners.SlashTakesAll` | src/inotify.c:847-849 | while `/` is watched everything is filed under it, also what lies in the tree of another watched root |
| `Owners.RefusalSays` | src/inotify.c:1165-1209 | which error a watch meets, by the relations of its path to the roots: child, being destroyed, already watched, parent, or none |
| `Owners.RefusalOfNew` | src/inotify.c:1165-1209 | the same for a path that is not itself watched, for any roots |
| `Unwatch.TreeBreaksOnlyAt` | src/inotify.c:864-864 | a step of any thread keeps walkers and events in the trees of their roots, destroyers ahead of what is left of theirs and every indexed path owned by a root, if and only if it neither files an event under a root that is not above its directory nor makes `/` a root |
| `Unwatch.TreeHoldsExactly` | src/inotify.c:978-1069 | over any run that invariant holds all the way if and only if neither step occurs |
| `Unwatch.UnwatchComplete` | src/inotify.c:988-1065 | when a destroyer ends, in any interleaving in which no event was misfiled and `/` not watched so far, its very Root leaves the table and no indexed path is the root or below it |
| `Unwatch.NoLateRegistration` | src/inotify.c:1377-1384 | no walker of an ended Root registers anything ever after |
| `Unwatch.IndexedIsOwned` | src/inotify.c:1377-1455 | under the same hypothesis every indexed directory lies under exactly one watched root, and a tree none of whose directories or ancestors is a root is unindexed |
| `Unwatch.CalmIsWellFiled` | src/inotify.c:840-887 | a run has no such step if in all its states `/` is not watched and every root string plus slash that occurs in a watched directory is a prefix of it |
| `Leftovers.LeftoversAreStray` | src/inotify.c:1003-1065 | in every run whatsoever, a directory of the tree is indexed when its unwatch ends if and only if it lies below the root, a walker of another root registered it after the snapshot and it has stayed indexed |
| `Misfiled.UnwatchLeavesStray` | src/inotify.c:840-887 | a run from the empty registry: a creation in `/a/b/c` is queued for `/b`, and `/a/b/c/d` ends up indexed under no root after the unwatch of `/a/b` |
| `SlashRoot.SlashSpoilsUnwatch` | src/inotify.c:1188-1207 | a run from the empty registry with `/` beside `/a`: when the unwatch of `/a` ends `/a/x` is indexed, and when all walkers are done `/a` is not, although `/` is watched and registered |
| `Indexes.BijectionBreaksOnlyAt` | src/inotify.c:1442-1453 | a step keeps the indexes inverse to each other if and only if it neither re-adds an indexed path nor removes a stale lookup |
| `Indexes.BijectionOverRuns` | src/inotify.c:1452-1453 | over any run the indexes are inverse to each other all the way if and only if neither step occurs |
| `Indexes.WellFiledBijection` | src/inotify.c:1032-1036 | where no event is misfiled and `/` is not watched, never re-adding an indexed path is enough |
| `Descriptors.GivenBackButForRoots` | src/inotify.c:1044-1055 | in any step all descriptors that leave the index have been given back to the kernel if and only if the step is not the end of a destroyer whose root is indexed under a descriptor the kernel has |
| `Descriptors.IndexedIsHeldOrLive` | src/inotify.c:1026-1036 | in every reachable state an indexed descriptor that was given back is held by a destroyer about to remove it |
| `Coverage.SharedOnlyUnderSlash` | src/inotify.c:1032-1051 | what a destroyer takes out of the index also belongs to another watched root if and only if `/` is watched |
| `Coverage.TrackedKept` | src/inotify.c:1356-1522 | while roots come and go, a directory of a live root that is registered or on the way of one of that root's walkers is so after any step of any thread |
| `Coverage.KidsKept` | src/inotify.c:1465-1519 | every subdirectory of a registered directory of a live root is registered or on the way of one of that root's walkers, after any step; also for roots a step has just made |
| `Coverage.LiveRootsAreCovered` | src/inotify.c:1356-1522 | in any interleaving in which roots are watched, unwatched and watched again over a tree that stays as it is, no event is misfiled and `/` is not watched, every root that is not being unwatched and has no walker left has every eligible directory of its tree registered, despite pruning at known descriptors |
| `Coverage.LiveWalksAreCovered` | src/inotify.c:1308-1354 | the same below the starting point of every walker there ever was for such a root |
| `Spellings.WalkersWatchTheTree` | src/inotify.c:1442-1450 | in runs without an unwatch, with `/` watched and events misfiled as may be and directories reached under several spellings, once all walkers are done the descriptor of every eligible directory below every start is watched |
| `Spellings.WalkersCoverTheTree` | src/inotify.c:1356-1522 | where no two path strings name one directory, each of those directories is registered under its own path |
| `Finish.WalksEnd` | src/inotify.c:1465-1521 | over a tree of finite depth the steps a walker has taken and the work before it never exceed what it began with, in any run whose registered directories are listed as the tree has them |
| `Finish.CoverageIsReached` | src/inotify.c:1356-1522 | every run as in `Coverage.LiveRootsAreCovered`, over a tree of finite depth, can be continued to a point where all walkers are done and the whole tree of every live root is registered |
| `Finish.StillCoverageIsReached` | src/inotify.c:1442-1450 | the same for runs without an unwatch, `/` and misfiled events included, by descriptors |
| `Queues.StepConserves` | src/inotify.c:558-626 | one step of any thread: queued plus accepted equals taken plus queued after |
| `Queues.FifoConservation` | src/inotify.c:747-792 | over any run the events accepted for a Root not being destroyed are, in order, those handed out or flushed followed by those still queued |
| `Queues.QueuesBoundedAndSilent` | src/inotify.c:575-587 | in every reachable state no queue exceeds its capacity, and a paused live root has an empty queue except between the sections of that very pause |
| `Queues.PauseSilence` | src/zeromq.c:461-473 | a paused, flushed root stays empty until it is unpaused, whatever arrives |
| `Progress.WalkerCanStep` | src/inotify.c:1308-1522 | in every invariant state every walker has a step |
| `Progress.DestroyerCanStep` | src/inotify.c:978-1069 | in every invariant state every destroyer has a step |
| `Progress.DispatcherCanStep` | src/inotify.c:747-810 | between sections the dispatcher is stopped exactly where it would dequeue from a released queue, and only roots under destruction have one |
| `Progress.ReleaseInTheGap` | src/inotify.c:797-810 | a queue that was there when its root was looked up may be released before it is read |
| `Progress.SweepEnds` | src/inotify.c:1007-1041 | a destroyer with its snapshot takes at most three steps a key before its last, whatever other threads do |
| `Wire.FieldsOf` | src/inotify.h:76-87 | the fields of an encoded kernel record read back |
| `Wire.ReadName` | src/inotify.c:220-220 | reads exactly the name in front of its padding |
| `Wire.ReadRecord` | src/inotify.c:220-220 | the record at the cursor is decoded to the record that was encoded there |
| `Daemon.Registry.constructor` | src/inotify.c:105-127 | the registry starts empty |
| `Daemon.Registry.FindRoot` | src/inotify.c:840-887 | the scan is the first match in iteration order, `/` before all |
| `Daemon.Registry.IsParent` | src/inotify.c:909-943 | none exactly if the path plus slash occurs in no root |
| `Daemon.Registry.EnqueueEvent` | src/inotify.c:558-626 | at capacity nothing changes and it says so; otherwise the queue gains one event with the record's descriptor, mask, cookie, length and name and the given path, and no other Root changes |
| `Daemon.Registry.DequeueEvents` | src/inotify.c:747-792 | events returned followed by the queue left are the old queue; as many as asked for, all on 0 |
| `Daemon.Registry.ForgetTree` | src/inotify.c:480-531 | though it removes from the table whose keys it walks, exactly the paths below the directory and their descriptors go |
| `Daemon.Registry.ForgetVanished` | src/inotify.c:430-534 | the directory goes, and after a move all below it; exactly their descriptors are given back |
| `Daemon.Registry.HandleRecord` | src/inotify.c:222-546 | one record changes tables, walkers started and descriptors given back as the one-record specification says, whose meaning is in the four rows that follow |
| `Effects.OthersAreIdle` | src/inotify.c:222-354 | a record has no effect at all unless it has a name that is no scratch name, reports no overflow, ignored watch or directory closed unwritten, its descriptor is indexed, its root is live and unpaused, and no unindexed directory goes out |
| `Effects.DirectoryEffect` | src/inotify.c:373-536 | by the digits of the mask: a directory created or moved in is walked for its root and nothing else; one deleted or moved out leaves both indexes, after a move with all below it, and exactly their descriptors are given back; any other record leaves indexes and walkers alone |
| `Effects.QueueEffect` | src/inotify.c:538-544 | the root's queue gains one event with the record's fields exactly if record and root share a digit and there is room; nothing else of any Root changes |
| `Effects.SeenExactly` | src/inotify.c:222-274 | the records skipped before any table is read, by digits, length and name |
| `Daemon.Registry.HandleBuffer` | src/inotify.c:208-550 | over any well-formed buffer the cursor loop terminates and equals the left fold of the one-record specification; a read error changes nothing |
| `Daemon.Registry.NextRecord` | src/inotify.c:218-226 | every branch moves the cursor past exactly one encoded record |
| `Daemon.Registry.Memclean` | src/inotify.c:1687-1756 | leaves exactly the path entries that are directories, drops and gives back exactly the others' descriptors, counts the drop in size, keeps the indexes in agreement |
| `Daemon.Registry.CleanIfGone` | src/inotify.c:1693-1755 | a key goes exactly if it is absolute, no directory and still indexed |
| `Daemon.Registry.CleanKey` | src/inotify.c:1714-1754 | one rogue entry and its descriptor go and the indexes still agree |
| `Daemon.Registry.WatchTree` | src/inotify.c:1146-1256 | refused with the right error and unchanged, or the new Root inserted and its walker started |
| `Daemon.Registry.Collision` | src/inotify.c:1165-1209 | no error exactly if the path is clear of all roots |
| `Daemon.Registry.UnwatchTree` | src/inotify.c:1115-1140 | error and no change, or the Root marked and one destroyer started for it |
| `Daemon.Registry.DestroyRoot` | src/inotify.c:978-1069 | without interruption: queue released, tree, root and counter gone, descriptors below the root given back but not the root's own |
| `Daemon.Registry.SetPaused` | src/inotify.c:1071-1113 | the flag of a watched root is set or cleared as asked and nothing else changes, or it is reported as not watched |
| `Daemon.Registry.GetEvents` | src/inotify.c:797-810 | the front of the root's queue; nothing for an unwatched path |
| `Daemon.Registry.GetRoots` | src/inotify.c:629-676 | the root paths in iteration order followed by `EOL` |
| `Daemon.ReadRoots` | src/zeromq.c:591-597 | the list reads back whole exactly if no root is called `EOL` |
| `Batch.BatchQueue` | src/inotify.c:218-550 | over a whole buffer each queue gains the longest prefix of the events offered to it that fits; nothing else of a Root changes |
| `Batch.DeliveredToOwner` | src/inotify.c:281-546 | where the lookup can be trusted a record concerns the one root above its directory: no effect if there is none, it is paused or destroyed, else queued there, and a new directory is followed for that root |
| `Batch.BatchAgrees` | src/inotify.c:430-534 | handling a buffer keeps the indexes in agreement |
| `Batch.MovedSubtreeIsExact` | src/inotify.c:430-534 | after a move of an indexed directory the path index is the old one without it and what lies below, the descriptor index loses exactly their descriptors, siblings with a common name prefix stay |
| `Batch.InOneGoIsHandleOne` | src/inotify.c:218-550 | the sections of one record, uninterrupted, have the outcome of the one-record specification |
| `Batch.BatchIsRun` | src/inotify.c:218-550 | from any idle state handling a buffer is a run of at most three dispatcher steps a record that ends with the tables, walkers and descriptors given back of the fold |
| `Alone.DestroyedIsExact` | src/inotify.c:988-1065 | an uninterrupted unwatch takes out the root and what lies below it, with their descriptors, and nothing else |
| `Alone.DestroyAlone` | src/inotify.c:978-1069 | there is a run of the destroyer alone that ends as the sequential form does |
| `Dump.AtoiDecimal` | src/inotify.c:157-159 | every integer reads back as it was printed |
| `Dump.LineReadsBack` | src/inotify.c:154-166 | a dumped line parses to its root exactly if the path has no comma |
| `Dump.FgetsLine` | src/inotify.c:150-153 | the line reader returns the dumped line exactly if the path has no newline and the line fits the buffer |
| `Dump.SignedRoundTrip` | src/inotify.c:721-722 | a 32-bit mask printed as signed and stored back is the same mask |
| `Dump.DumpRoots` | src/inotify.c:697-729 | the file is one line for each rewatched root in iteration order |
| `Dump.RestoreRoots` | src/inotify.c:153-170 | the restore loop computes the restored tables, or crashes, as specified line by line, and starts one walk for each Root it makes, in order |
| `Dump.Setup` | src/inotify.c:105-174 | from empty tables, the same; the walks are those of the restored Roots |
| `Dump.ParseFields` | src/inotify.c:154-166 | three fields are the path, the mask and the capacity, invalid if a number reads as zero |
| `Dump.FewerFields` | src/inotify.c:157-159 | one or two fields crash the loop |
| `Dump.LineExample` | src/inotify.c:721-722 | two lines as they stand in the file |
| `Dump.AtoiForms` | src/inotify.c:158-159 | blanks, signs and what is no number |
| `Dump.DumpRestore` | src/inotify.c:143-170 | restarting from the dump recreates exactly the rewatched roots whose directory opens, with equal path, mask and capacity, for every order of both hash tables |
| `Dump.RestartIsWalked` | src/inotify.c:153-170 | after a restart exactly the recreated roots are walked, each once |
| `Dump.RestartOfAnyRun` | src/inotify.c:697-729 | the same for the dump of every reachable state |
| `Dump.SlashShutsOut` | src/inotify.c:847-849 | once `/` is watched every further line is refused |
| `Paths.TrimPath` | src/request.c:163-181 | stays in bounds exactly unless the path is two or more slashes, and then leaves the normal spelling |
| `Paths.SpellingAgreement` | src/inotify.c:1120-1123 | any number of trailing slashes gives one key, the same for watch and unwatch, which drop one slash more themselves |
| `Paths.SpellingsPartAtSlash` | src/inotify.c:1153-1156 | normal spellings are fixed points, watch keeps them, and unwatch keeps them exactly if the path is not `/` |
| `Paths.ThroughBraceFacts` | src/zeromq.c:139-144 | the kept text is a prefix, all of it without a brace, else ending at the first one |
| `Paths.Truncate` | src/zeromq.c:145-150 | the loop whose bound shrinks as it writes terminates leaving the text through the first brace |
| `Answers.LikeMissing` | src/request.c:183-249 | a number reads as it is given; which ones cannot be told from a missing member: -1 for any, also 0 and the default itself where there is a default, also 1 for a count |
| `Answers.PathSpelling` | src/request.c:163-181 | whatever its trailing slashes a request's path is the path without them; without a string there it has none |
| `Requests.Server.GetPath` | src/request.c:163-181 | the path in its normal spelling, if it is there |
| `Requests.Server.EventWatch` | src/zeromq.c:187-262 | one reply; the error by the path and its relations to the roots, success exactly if it is absolute, opens and is clear of all roots; then a Root with the asked mask, capacity and flag is made, listed, counted and walked, else nothing changes |
| `Requests.Server.EventUnwatch` | src/zeromq.c:301-319 | one reply; success exactly if the root is watched and unmarked; then that Root is marked and its destroyer started, else nothing changes |
| `Requests.Server.EventPause` | src/zeromq.c:441-474 | one reply; a watched root's flag is set and its queue emptied, and nothing else changes |
| `Requests.Server.EventUnpause` | src/zeromq.c:476-504 | one reply; a watched root's flag is cleared, and nothing else changes |
| `Requests.Server.EventGetEvents` | src/zeromq.c:506-565 | one reply: as many events as asked for from the front of the queue, which keeps the rest; a refused count takes nothing; nothing else changes |
| `Requests.Server.EventGetQueueSize` | src/zeromq.c:361-409 | one reply: the queue length, 0 for a root under destruction |
| `Requests.Server.EventGetRoots` | src/zeromq.c:570-604 | one reply listing exactly the watched roots, if and only if none is called `EOL` |
| `Requests.Server.EventSubscribe` | src/zeromq.c:264-299 | one reply, a constant for a watched root; nothing changes |
| `Requests.Server.Dispatch` | src/zeromq.c:606-639 | one reply, and for each of the ten calls that call's reply and effect on tables, walks, descriptors and destroyers, field by field; an unknown call is refused and changes nothing |
| `Requests.ReadMessage` | src/zeromq.c:113-150 | the message up to its first NUL, cut after its first brace; empty exactly if it starts with NUL |
| `Requests.PassesExactly` | src/zeromq.c:152-158 | a message passes the quick look exactly if it starts with an opening brace or holds a closing one anywhere |
| `Requests.Server.HandleMessage` | src/zeromq.c:78-181 | exactly one reply for every non-empty message and parse outcome, with the error for each failure and no change, or the reply and effect of its call, unless a handler reads astray; says exactly which requests run off the path buffer, unwatch the empty path or read a released queue |

## Left out

- Unwatch.UnwatchComplete: the hypothesis on the steps so far is sufficient; exactly what an unwatch leaves behind without it is `Leftovers.LeftoversAreStray`.
- Coverage.LiveRootsAreCovered: over a tree that stays as it is, where no event is misfiled, `/` is not watched and the kernel knows an indexed directory by its path; two roots that are spellings of one directory are not covered.
- Spellings.WalkersCoverTheTree: for a kernel in which distinct path strings, `//` and `/` included, have distinct descriptors; `Spellings.WalkersWatchTheTree` drops that.
- Dump.DumpRestore: one direction only for a whole file; the exact conditions on a line (comma, newline, length) are `Dump.LineReadsBack` and `Dump.FgetsLine`. Roots under destruction are dumped too, and so are restored.
- Allocation failures, failing thread creation, `free` (that of the unset dump-file name included) and the lifetime of key strings and structures, except the release of a queue by its destroyer.
- The walker as a recursive method: walkers are modelled in the step system only, with an explicit stack of open directories. A failing second `opendir` is a directory without entries.
- Kernel and filesystem: adding a watch yields a descriptor or fails, with descriptors given back by `inotify_rm_watch` never handed out again; the tree is a function from directories to names and descriptors.
- The restore loop reads a file that its own watch requests rewrite; its contents are taken as they were when it was opened. Dump files the daemon did not write (relative roots) are covered by `Dump.RestoreRoots` but not by the runs.
- The flags that keep a second cleaner or rewatch from starting: any number of them is allowed instead.
- ZeroMQ sockets, JSON text and the conversion of events to JSON: a request is a parsed record, a reply an abstract value. A message that parses but lacks `call` counts as one that does not parse.
- The second mutex of the request layer, which only the dispatcher takes, and its stray unlock.
- The lookups by which a handler first tests whether a path is watched are taken together with the section that follows, except before a dequeue.
- `EVENT_status` beyond the number of watches, `ping` beyond its reply.
- Signals, options, pid file, daemonising, timers, configuration, logging (and the log call without its argument), error texts, the command-line client: they hold no state of the registry.
