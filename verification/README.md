# LiveSync Bridge: a verified model

LiveSync Bridge keeps directories and CouchDB databases in step. Peers report changes to a hub, the hub forwards each
change to the other peers of the same group, and a cache of content hashes in every peer is meant to stop a change from
travelling in circles. This project models that protocol and the engines below it in Dafny, and proves what they keep
over every run. `dafny verify dfyconfig.toml` checks the whole project.

| file | what it models |
|---|---|
| `Types.dfy` | paths, contents, hashes, change records |
| `SyncPeers.dfy` | storage peers, routing and the handling of a change event, with the cache taken for a map |
| `Convergence.dfy`, `ConvergenceLimits.dfy` | which runs leave a group with the same files, exactly, and what goes wrong in the others |
| `Restarts.dfy`, `Crashes.dfy` | convergence across restarts, where the index of file stats decides what is reported, and across crashes and failed deliveries |
| `Echo.dfy`, `Settling.dfy` | termination of echoes and conservation, with deliveries in flight in any order |
| `Overlap.dfy` | which runs leave a group with the same files when deliveries overlap |
| `LruCache.dfy` | the least-recently-used cache, and when it can be taken for a map |
| `Bridge.dfy`, `BridgeLimits.dfy` | the protocol with bounded caches and path conversion; how it inherits the results above, and exactly how far |
| `Heard.dfy`, `UnderscoreEcho.dfy` | how every run ends, whatever the cache forgets and however events overlap; why echoes of paths with underscores die out |
| `Hub.dfy` | the same as objects: storage peers and the hub with their loops and in-place updates |
| `FileTree.dfy`, `StatIndex.dfy`, `Vault.dfy` | directory tree, stored file stats and their keys; Put and Delete of a storage peer step by step |
| `OfflineScan.dfy`, `ScanFailures.dfy` | the two scans at startup, with cache, path conversion and failing targets |
| `Store.dfy` | prefix iteration over sorted keys, and the namespaces of peers |
| `Mvcc.dfy`, `CouchRetry.dfy` | optimistic concurrency with conflict resolution under arbitrary foreign writes |
| `Pipeline.dfy`, `ChunkStore.dfy`, `CouchPeer.dfy`, `Ids.dfy` | encoding, chunked documents, document IDs, and the CouchDB peer with the echoes of its own writes |
| `ChangesFeed.dfy` | checkpointing of the changes feed with disconnects and crashes |
| `Debounce.dfy`, `Retry.dfy`, `Paths.dfy`, `PathClean.dfy` | timers, backoff, path conversion, what cleaning and joining paths means |

## What turned out not to hold as documented

The code was followed wherever it and its documentation differ. Each item is a lemma with a concrete run or input, next
to the exact condition under which the promise does hold.

- `ARCHITECTURE.md:208-247` shows an echo being stopped and concludes that there is no infinite loop. For paths without a
  leading underscore that holds, in any interleaving, exactly as long as no more of them are in use than the hash cache
  has entries, which is 300 (`BridgeLimits.EchoesDieOutIff`). With leading underscores it holds as long as all keys fit
  (`UnderscoreEcho.AnyEchoBound`). With one path more, new files at one of two peers echo for ever
  (`BridgeLimits.NewFilesEchoForever`), and the bridge comes back to where it was without any user action
  (`BridgeLimits.OnePathTooManyCycles`).
- Even within that bound a delivered deletion is echoed once: a missing record hashes `"\x01Deleted"`, a deletion record
  hashes the empty bytes. `Echo.EchoBound` counts these echoes too.
- For the same reason an empty file looks deleted, and a file whose content is the deletion mark looks already deleted:
  groups then stay apart (`ConvergenceLimits.BadContentDiverges`), and these are the only two contents with that effect
  (`ConvergenceLimits.DecidedIffGoodContents`).
- With ordinary contents a group can still stay apart: both users remove a file, one deletion is handled, and the other
  user brings the same bytes back before the second is. The event is dropped as a repeat
  (`ConvergenceLimits.RevivalDiverges`). `Convergence.RunDecides` says of every run how it ends: a group without open
  events agrees if and only if the last event that was sent or dropped in this way was sent.
- Deliveries of different paths and groups may overlap freely, and so may user actions (`Overlap.NetRunDecides`), but two
  events of one path in one group may not: two different edits can then end up swapped, with nothing left to repair it
  (`ConvergenceLimits.CrossedEditsDiverge`). The hub takes only a read lock, so nothing rules that out. For any overlap,
  and any cache size, a quiet group agrees if and only if its members sent or accepted the same change last
  (`Heard.EveryRunIsDecided`).
- After a delivery that failed, a quiet group stays apart (`Crashes.FailureLeavesApart`): nothing retries it. The source
  has not stored its stat, so a restart makes it report the file again (`Crashes.FailureNeedsRestart`), and the group
  converges across such failures and crashes (`Crashes.ConvergenceAcrossCrashes`).
- Storage peers strip a leading underscore from the path of every change: "_n.md" of one peer becomes "n.md" at the
  other (`BridgeLimits.UnderscoreIsLost`). The outcome of runs is as above if and only if no path begins with an
  underscore (`BridgeLimits.AllDecidedIff`).
- `reassembleChunks` reads chunk documents through a type that has no field for their data, so every chunk comes back
  empty. The model has both readings: with the full read that `Get` performs on main documents, Put, Delete and Get act as a map;
  as coded, a file is read back exactly when it was stored inline (`ChunkStore.ReadBackAsCodedIff`).
- `forceUpdateRemote` keeps inline bytes of any size, but a local document that is itself chunked carries no bytes and
  is emptied (`ChunkStore.ForcedKeepsContentIff`).
- The conflict strategy protects only the last step: without a race a Put replaces any version
  (`Mvcc.UndisturbedPutReplacesAnything`), and a forced delete reads the revision again after the comparison and can
  remove a newer version (`Mvcc.ForcedDeleteCanRemoveNewer`).
- `isCouchDBConflict` searches the error text, which holds the document ID; for an ID that contains "Conflict" every
  server error counts as a conflict. `Mvcc.Context` has a flag for this, and the safety results hold with it as well; a
  failed write ends a Put at once if and only if the flag is not set (`Mvcc.FailureEndsIff`).
- The revision that an attempt has read is kept for the next ones: a document that is deleted after a Put has read it is
  not written again, and the Put fails (`Mvcc.DeletedMeanwhileFails`).
- The startup scans leave the index equal to the tree if and only if every remembered visible path that vanished has no
  underscore in front, and every other one still names its file (`OfflineScan.ScanIsExactIff`). A displaced file (a
  directory in its place, or a file in place of one of its directories) keeps its stat for ever. So does a vanished
  "_n.md", since the deletion is sent and dropped as "n.md" (`OfflineScan.StaysForEver`): every start deletes a file
  "n.md" in the whole group, and sends it again at the next (`OfflineScan.NeighbourIsDeletedAgain`). A second start is
  silent if and only if no remembered path that vanished begins with an underscore (`OfflineScan.SecondScanIsSilentIff`).
- "_n.md" and "n.md" share a cache entry: with equal bytes only the first is sent (`OfflineScan.TwinIsSkipped`).
- Put and Delete store the stat of "_d/x" under "/_d/x", the scans and the watcher under "_d/x", and the cleanups find
  only keys without the slash. `StatIndex.PutOrphansIff` and `Vault.DeleteLeavesNoOrphansIff` say exactly when a stat is left
  behind without its file.
- At a CouchDB peer without base directory the feed reports the peer's own deletions with the hash of an empty file, so
  an empty file that is put again is not written. Runs answer as a map, wherever the entries of the feed fall, if and
  only if no content is the deletion mark or, at such a peer, empty (`CouchPeer.AlwaysAnswersIff`). An entry that comes
  late makes the peer skip a Put of the older content (`CouchPeer.LateEntryLosesPut`).
- A burst of events starts `processChange` once, unless the cleanup of an old timer has dropped a newer one from the map:
  the next event then does not stop that one (`Debounce.BurstsStartOnce`, `Debounce.DroppedTimerStartsAgain`).
- `Stop` can leave a timer armed, because the cleanup of an old timer may drop a newer one from the map
  (`Debounce.StopCanMissATimer`).
- Peer names are unique by configuration, but names that contain "-" can still share stored keys
  (`Store.DashedNamesClash`).
- The path `h/<name>/<n>` gets the ID of a chunk of `<name>` (`Ids.NameHCollides`).

## Assumptions

- SHA-256 has no collisions, so a hash is represented by the bytes that were hashed.
- In `SyncPeers.dfy`, `Convergence.dfy`, `Restarts.dfy`, `Crashes.dfy`, `Echo.dfy`, `Settling.dfy` and `Overlap.dfy` the
  cache of a peer is a map and a path is not converted. `Bridge.RunRefines` shows that this is exact while the paths fit
  into the cache and are plain (`Paths.PlainIff`). In `Vault.dfy` the cache is a map; paths are converted there.
- Peers of one system have different names, as the configuration loader demands.
- In `Restarts.dfy` and `Crashes.dfy` a stored file stat (modification time and size) stands for the content that it was
  taken of.
- gzip and AES-GCM are given by encoder and decoder pairs in which decoding undoes encoding and both decoders refuse
  empty input (`Pipeline.Codec.Sound`).
- CouchDB accepts a write exactly when the revision sent is current, or none is sent and the document is absent or
  deleted; revisions are never reused, and a call that fails has not committed.
- In the results about whole runs of the protocol, writes and deletes on disk succeed, and paths are flat: no path is an
  ancestor of another one. `Hub.dfy` and `Crashes.dfy` cover failing targets, `Vault.dfy` covers paths in each other's way.
- An entry of the changes feed shows its document as it is when the peer reads the entry, unless said otherwise.
- The changes feed starts from a concrete sequence.

## Model

| member | source | states |
|---|---|---|
| SyncPeers.StepIsLocal | internal/storagepeer/peer.go:166-262 | an action on one path changes neither file, cache nor pending event of any other path at any peer |
| Convergence.PutReaches | internal/hub/hub.go:114-141 | whatever happened before, after a file is sent every member of the group has its hash cached, and holds it or has an event to handle |
| Convergence.DeleteReaches | internal/storagepeer/peer.go:456-475 | whatever happened before, after a deletion is sent every member of the group lacks the file or has an event to handle |
| Convergence.SkipIsHarmless | internal/peer/base.go:194-199 | dropping a repeat that is not swallowed keeps the group on track to the last dispatched value |
| Convergence.SwallowedLosesTrack | internal/peer/base.go:103-122 | a swallowed event can only follow a dispatched deletion, and leaves the group on no track at all |
| Convergence.ChangeKeepsTrackIff | internal/storagepeer/peer.go:395-475 | handling an event keeps the group on track if and only if the event is not swallowed |
| Convergence.StepKeepsBase | internal/storagepeer/peer.go:395-475 | every action, of any kind, keeps that a peer's cache speaks of its file or an event is open, and that a file gone round is cached by all |
| Convergence.StepKeepsInv | internal/storagepeer/peer.go:395-475 | every action keeps, for every group and path, that each member has a pending event or matches the last dispatched value |
| Convergence.RunDecides | internal/hub/hub.go:100-173 | for every run after a start with empty caches: a group with no event left agrees on a path if and only if the last event sent or swallowed was sent, or, without one, the quiet members agreed at the start |
| Convergence.Convergence | internal/hub/hub.go:100-173 | where no event is swallowed, a group with no event left on a path holds the same file or none |
| Convergence.LastEventDecides | internal/peer/base.go:194-209 | whatever happened before, a last event that is sent makes the group agree and one that is swallowed leaves it apart |
| Convergence.DisciplineStep | internal/peer/base.go:125-139 | a user who does not revive deleted bytes never creates a file whose event would be swallowed |
| Convergence.DisciplineSuffices | internal/peer/base.go:103-139 | over whole runs of such users no event is swallowed |
| Convergence.DisciplinedRunsConverge | internal/hub/hub.go:100-173 | a condition on user actions alone that makes every quiet group agree |
| ConvergenceLimits.BadContentDiverges | internal/storagepeer/peer.go:456-463 | creating and removing a file that is empty or holds the deletion mark leaves two quiet peers apart although the last event was sent |
| ConvergenceLimits.RevivalDiverges | internal/peer/base.go:103-122 | a run with ordinary content that ends quiet and apart, because the last event is dropped as a repeat |
| ConvergenceLimits.DecidedIffGoodContents | internal/peer/base.go:107-114 | on a set of contents all runs end as the last event decides if and only if the set holds neither the empty file nor the deletion mark |
| ConvergenceLimits.CrossedEditsDiverge | internal/hub/hub.go:100-141 | with overlapping deliveries of one path any two different edits can end up swapped for good |
| Restarts.SentHolds | internal/storagepeer/peer.go:200-253 | after a dispatch the indexes of all members hold the sent file, or lack the deleted one unless its member has an event open |
| Restarts.IndexPreventsSwallowing | internal/peer/base.go:103-122 | what the index keeps in step with the last change rules out that an event is swallowed |
| Restarts.RestartKeepsInv | internal/storagepeer/peer.go:103-119 | losing all caches and open events keeps the group on track, because the scans report what the index does not hold |
| Restarts.ConvergenceAcrossRestarts | internal/storagepeer/peer.go:478-619 | with any number of restarts between actions, and no revival, a group with no event left on a path holds the same file or none |
| Restarts.RestartDecides | internal/storagepeer/peer.go:540-608 | after any restart: agreement is decided by the last event sent or swallowed, and without one by the files that equal their index |
| Crashes.CutKept | internal/storagepeer/peer.go:422-453 | an event cut short between its deliveries, at whatever targets, leaves its source with a file to report that it has not stored, or a group that had it stored before |
| Crashes.OwedIsSettled | internal/peer/base.go:194-209 | the first event that is handled after such a start is sent, and settles what was owed, whatever the other members hold |
| Crashes.ConvergenceAcrossCrashes | internal/storagepeer/peer.go:103-119 | with any number of restarts and of crashes at any moment, also between the deliveries of an event, a group with no event left on a path holds the same file or none; users neither revive nor take back what another member has stored |
| Crashes.FailureNeedsRestart | internal/storagepeer/peer.go:438-452 | after a delivery that failed the group is apart and the source has no event left; a restart makes it report the file again |
| Crashes.FailureLeavesApart | internal/hub/hub.go:143-170 | a run from the first start whose only delivery fails, and which ends quiet and apart |
| Echo.SumUpdate | internal/storagepeer/peer.go:173-211 | changing one peer at one path changes the sum over all peers and paths by that pair's share only |
| Echo.OpenCost | internal/peer/base.go:194-209 | handling an event lowers the potential, all the deliveries it posts included |
| Echo.ArriveCost | internal/storagepeer/peer.go:166-250 | each delivery, skipped or not, lowers the potential, the event that it raises included |
| Echo.UserCost | internal/storagepeer/peer.go:340-392 | a user write raises the potential by a fixed price at most, a user removal not at all |
| Echo.EchoBound | internal/peer/base.go:103-139 | in every interleaving, events handled and deliveries together are bounded by the initial potential plus a fixed price per user write |
| Echo.DispatchesConserved | internal/peer/base.go:194-209 | files dispatched plus pairs still stale never exceed user writes plus pairs stale at the start |
| Echo.DeliveriesConserved | internal/hub/hub.go:114-158 | each user write costs at most one delivery for each of the other peers, however deliveries interleave |
| Echo.AtomicIsInterleaved | internal/hub/hub.go:100-173 | handling an event in one go is one of the interleavings: open it, then let all its deliveries arrive |
| Overlap.SendFollows | internal/hub/hub.go:114-141 | an event sent while nothing of its path is on its way puts the group on the way to it, whatever happened before |
| Overlap.ArrivalFollows | internal/storagepeer/peer.go:166-262 | each arrival, in any order, brings its target to the last change or leaves it an open event |
| Overlap.NetStepIsJudged | internal/hub/hub.go:100-173 | every step keeps, unless it opens an event of the path while an earlier change of it is on its way, whether the group is on its way to the last change or lost |
| Overlap.NetRunDecides | internal/hub/hub.go:100-173 | for every interleaving in which events of that path in that group do not overlap: a group at rest agrees on the path if and only if the last event sent or swallowed was sent, or, without one, the quiet members agreed at the start |
| Overlap.OrderlyRunsConverge | internal/hub/hub.go:100-173 | where no event is swallowed, every such interleaving leaves a group at rest with the same file or none |
| Settling.AtomicStepCost | internal/storagepeer/peer.go:395-475 | handling an event in one go lowers the potential |
| Settling.EventsAreBounded | internal/storagepeer/peer.go:395-419 | without user actions no more events can be handled than the potential allows, in any order |
| Settling.EventsKeepTrack | internal/storagepeer/peer.go:395-475 | handling events alone keeps the invariant and never creates an event that would be swallowed |
| Settling.IdleGroupSettles | internal/hub/hub.go:100-173 | once users are idle, any order of handling stops within the bound, and where nothing is pending all groups agree on all paths |
| Settling.AlignedStartSettles | internal/storagepeer/peer.go:103-119 | so it is after every start, with unchanged files unreported, whose quiet members agree |
| Settling.SettlingRunExists | internal/storagepeer/peer.go:395-419 | from every state some run of event handling ends with nothing pending |
| LruCache.Cache.Get | internal/util/cache.go:22-24 | a lookup returns what the contents hold, keeps the contents, and makes the key the most recent |
| LruCache.Cache.Set | internal/util/cache.go:27-29 | the contents hold the new value, and lose at most the least recently used key, and that only when a new key meets a full cache |
| LruCache.AddedIsUpdateIff | internal/util/cache.go:27-29 | setting acts as a map update if and only if the key is known or there is room |
| LruCache.CacheIsMap | internal/peer/base.go:29 | over any run that writes no more keys than fit, all lookups answer as a map would |
| LruCache.OneKeyTooMany | internal/peer/base.go:29 | one key more than fits, and the least recently used entry is forgotten |
| LruCache.UsedIsFirst | internal/util/cache.go:22-29 | a key that is looked up or set comes to the front, and the others keep their order |
| LruCache.LookupSaves | internal/util/cache.go:22-29 | a lookup saves a key from being pushed out by the next new one |
| Bridge.ReceiveRefines | internal/storagepeer/peer.go:166-262 | with room in the cache, Put and Delete of a peer with bounded cache do what they do with a map |
| Bridge.TakenRefines | internal/peer/base.go:194-209 | with room in the cache, so does DispatchFrom |
| Bridge.FailureKeepsHash | internal/storagepeer/peer.go:166-262 | a write or delete that fails leaves files, events and cached hashes alone, for every cache size |
| Bridge.WireIs | internal/peer/base.go:194-209 | on the way out a path loses up to two leading underscores, and is looked up in the cache with one of them gone |
| Bridge.RunRefines | internal/peer/base.go:29 | every run over plain paths that fit into the cache is step by step a run of the protocol over map caches |
| Bridge.BridgeEchoBound | internal/peer/base.go:103-139 | with bounded caches and path conversion, handled events and deliveries are bounded while the paths fit |
| Bridge.BridgeConserves | internal/hub/hub.go:114-158 | likewise each user write costs at most one dispatch, and one delivery per other peer |
| Bridge.BridgeDecides | internal/hub/hub.go:100-173 | likewise every run whose events of the path do not overlap ends as the last event sent or swallowed decides |
| Heard.RunHears | internal/peer/base.go:103-139 | over every run on plain paths, whatever the cache forgets, a peer without open event holds the change of the path that it sent or carried out last, and its cache speaks of that change or of none |
| Heard.EveryRunIsDecided | internal/hub/hub.go:100-173 | for every cache size and every interleaving of events and deliveries, overlapping or not: a quiet group agrees on a path if and only if its members heard the same change last |
| UnderscoreEcho.WireIsShorter | internal/util/path.go:29-37 | a path with an underscore in front is written under a shorter path at the targets |
| UnderscoreEcho.LongOpenCost | internal/storagepeer/peer.go:395-419 | handling the event of a path with an underscore pays for all it sends, and for the cache entry that it takes over from another path |
| UnderscoreEcho.LongArrivalCost | internal/storagepeer/peer.go:166-262 | a delivery under a key that is not the path of the file pays for the event that it raises |
| UnderscoreEcho.AnyEchoBound | internal/peer/base.go:103-139 | with bounded caches and path conversion, whatever underscores the paths begin with, handled events and deliveries are bounded by the charge at the start and a fixed price for each user step, while the keys fit |
| UnderscoreEcho.ReportedPathsAreClosed | internal/util/path.go:10-37 | reported paths that are sent as reported paths meet the condition for that |
| BridgeLimits.RingTurns | internal/util/cache.go:27-29 | used in a circle, one path too many misses at every use and pushes out the path that comes next |
| BridgeLimits.OnePathTooManyCycles | internal/peer/base.go:29 | for every cache size, a run over one path more without user actions that returns to its start |
| BridgeLimits.NewFilesEchoForever | internal/peer/base.go:29 | from new files at one peer and empty caches, runs without user actions of any length |
| BridgeLimits.EchoesDieOutIff | internal/peer/base.go:103-139 | echoes are bounded from every state if and only if the paths are no more than the cache holds |
| BridgeLimits.UnderscoreIsLost | internal/util/path.go:29-37 | "_n.md" of one peer arrives as "n.md" at the other, and nothing is left to do |
| BridgeLimits.AllDecidedIff | internal/storagepeer/peer.go:395-397 | on a set of reported paths all runs without overlapping events of a path end as the last event decides if and only if none begins with an underscore |
| Hub.StoragePeer.IsRepeating | internal/peer/base.go:103-122 | true exactly when the cached hash of the path is the hash of the data, with the mark for missing data; the lookup counts as a use |
| Hub.StoragePeer.MarkProcessed | internal/peer/base.go:125-139 | the new state caches that hash, possibly at the price of the oldest, and nothing else changes |
| Hub.StoragePeer.Put | internal/storagepeer/peer.go:166-214 | a repeat or a failing write changes neither files nor events; otherwise file, cached hash and pending event change together |
| Hub.StoragePeer.Delete | internal/storagepeer/peer.go:217-262 | a repeat, a missing file or a failing delete changes neither files nor cached hash; otherwise file, cache and pending event change together |
| Hub.Hub.RegisterPeer | internal/hub/hub.go:36-45 | the peer is appended to the hub's peers and nothing else changes |
| Hub.Hub.Offer | internal/hub/hub.go:114-158 | one target is skipped, put to or deleted from by name, group and deletion flag; no other peer changes |
| Hub.Hub.Dispatch | internal/hub/hub.go:100-173 | every peer ends in the state that its own offer leads to, whatever the others do, and the failures are listed in order |
| Hub.FailedNamesExact | internal/hub/hub.go:143-170 | a name is reported if and only if a target of that name failed |
| Hub.NoFailures | internal/hub/hub.go:166-172 | without failing writes nothing is reported |
| Hub.FailuresAreLocal | internal/hub/hub.go:143-148 | what a peer becomes does not depend on which others fail, and a failing one keeps its files, events and cached hashes |
| Hub.FailsIff | internal/hub/hub.go:114-158 | a target fails if and only if it is routed to, does not know the change, has the file that is to be deleted, and cannot write |
| Hub.OthersAreLeftAlone | internal/hub/hub.go:114-128 | a peer of another group or of the name of the source is left alone; a change without a source goes to just the peers without a group |
| Hub.FailureCanBeRepeated | internal/hub/hub.go:143-148 | offered again after a failure, a change does what it would have done the first time |
| Hub.EventArrives | internal/storagepeer/peer.go:395-453 | a file whose event is no repeat is written at every target that can write it and does not know it, under the path with its underscores stripped |
| Hub.Hub.ProcessChange | internal/storagepeer/peer.go:395-475 | the path is converted twice, a repeat stops there, and otherwise state and reported failures are those of the dispatch, failing targets included |
| Hub.HandledIsChange | internal/peer/base.go:194-209 | with succeeding writes, room in the caches and a plain path this is the step on which the convergence theorems rest |
| FileTree.PutKeepsWellFormedIff | internal/storagepeer/peer.go:166-214 | Put leaves every ancestor of a node a directory if and only if it is not asked to write the root |
| FileTree.PutKeepsNoEmptyDirs | internal/storagepeer/peer.go:179-205 | Put keeps that only the root may be an empty directory |
| FileTree.PutReplaces | internal/storagepeer/peer.go:179-205 | after a Put the file holds the new bytes, its ancestors are directories, nothing is left below it, and everything else is as it was |
| FileTree.DeleteKeepsInvariants | internal/storagepeer/peer.go:237-262 | Delete keeps the tree well formed and free of empty directories other than the root |
| FileTree.DeleteKeepsOtherFiles | internal/storagepeer/peer.go:237-262 | every file but the deleted one survives unchanged, and nothing appears |
| FileTree.DeleteUndoesPut | internal/storagepeer/peer.go:166-262 | putting a new file where nothing is in the way and deleting it again restores the whole tree |
| StatIndex.LocalKeyLoc | internal/util/path.go:10-25 | the key that Put and Delete use is about the location of the path, and has a slash in front exactly for an underscore |
| StatIndex.BelowIs | internal/storagepeer/peer.go:748-790 | the string comparison of the cleanup finds exactly the keys at or below the directory that have no slash in front |
| StatIndex.PutOrphansIff | internal/storagepeer/peer.go:683-790 | a Put leaves no stat without its file if and only if none of the files that it replaces is remembered under a key with a slash |
| Vault.CleanedIs | internal/storagepeer/peer.go:622-644 | the upward walk removes exactly the directories below which nothing else lies, and never the root |
| Vault.OnlyBlocker | internal/storagepeer/peer.go:710-741 | at most one ancestor can be a file, so stopping after the first removal clears the way |
| Vault.OnlyStat | internal/storagepeer/peer.go:710-741 | the stat that is dropped with the blocking file is the only one of a file on the way |
| Vault.PutTree | internal/storagepeer/peer.go:179-198 | clearing the way, making directories, removing a directory and writing amount to one closed form |
| Vault.PutStats | internal/storagepeer/peer.go:683-790 | the two cleanups of stats drop exactly the stats of the file on the way and of what lies below a replaced directory, as far as their keys have no slash in front |
| Vault.DeleteTree | internal/storagepeer/peer.go:237-262 | removal and cleanup amount to one closed form |
| Vault.DeleteLeavesNoOrphansIff | internal/storagepeer/peer.go:237-262 | a Delete that goes through leaves no stat without its file if and only if the file is not remembered under its other key as well |
| Vault.Vault.RemoveFileConflictsInParentPath | internal/storagepeer/peer.go:683-745 | the loop removes every file on the way with its stat, and nothing else |
| Vault.Vault.CleanupDirectoryStats | internal/storagepeer/peer.go:748-790 | the two loops drop the stats at or below the directory whose keys have no slash in front, and no others; for the root none |
| Vault.Vault.RemoveDirectoryIfExists | internal/storagepeer/peer.go:648-676 | removes a directory with all below it and the stats that the cleanup finds, and leaves everything else alone |
| Vault.Vault.Put | internal/storagepeer/peer.go:166-214 | the new tree, stats and cache for any path that can be sent, from any well-formed tree, with the stat under the converted path; a repeat changes nothing |
| Vault.Vault.WriteFile | internal/storagepeer/peer.go:179-211 | clearing the way, replacing a directory, writing and storing the stat under the given key amount to the closed forms of tree and stats |
| Vault.Vault.Delete | internal/storagepeer/peer.go:217-262 | the new tree, stats and cache; the stat is dropped under the converted path only; exactly when it succeeds, skips or fails; nothing changes unless it succeeds |
| Vault.Vault.RemoveLeaf | internal/storagepeer/peer.go:237-262 | the removal part of Delete; its second search for blocking files removes nothing |
| Vault.Vault.CleanupEmptyDirs | internal/storagepeer/peer.go:622-644 | the recursion ends and computes the upward walk |
| OfflineScan.Starting.DispatchFrom | internal/peer/base.go:194-209 | a repeat counts as dispatched, anything else is marked in the bounded cache and sent once |
| OfflineScan.Starting.Visit | internal/storagepeer/peer.go:422-519 | a file is passed over exactly when its stat is the one stored; otherwise it is sent under its converted path unless the cache knows it, and its stat is stored unless it was sent and a target failed |
| OfflineScan.Starting.ScanOfflineChanges | internal/storagepeer/peer.go:478-537 | for any failing targets: what was sent, in order; that a file is still not stored if and only if it was dispatched and a target failed; that a changed file not dispatched shares the cache entry of one that was; and that nothing else is touched |
| OfflineScan.Starting.CollectVanished | internal/storagepeer/peer.go:545-579 | collects the keys whose path is gone, once each and in order |
| OfflineScan.Starting.DispatchDeletion | internal/storagepeer/peer.go:456-475 | sends the deletion of the converted path unless the cache knows it, and forgets the stat of that path converted back unless it was sent and a target failed |
| OfflineScan.Starting.ScanOfflineDeletions | internal/storagepeer/peer.go:540-593 | for any failing targets: what was sent, in order, and that a key is forgotten if and only if some vanished key is converted to it that was not dispatched, or was without a failing target |
| OfflineScan.Starting.ScanOffline | internal/storagepeer/peer.go:103-119 | both scans for any failing targets; where none fails and no path involved begins with an underscore they send exactly the difference between index and tree |
| OfflineScan.DifferenceIsSent | internal/storagepeer/peer.go:478-593 | without underscores, each changed visible file is sent once in walk order, and then each vanished key once as a deletion, whatever the cache forgets |
| OfflineScan.ScannedAt | internal/storagepeer/peer.go:478-593 | what both scans leave under every key: nothing for a key to which a vanished one is converted, the present stat of a visible file, and otherwise what was there |
| ScanFailures.StartLeaves | internal/storagepeer/peer.go:442-475 | without underscores, a start with any failing targets leaves under every key the old stat of what failed, nothing for a key that vanished, and the present stat of every other file |
| ScanFailures.SecondStartSendsWhatFailed | internal/storagepeer/peer.go:438-475 | the next start on the same tree sends just the files whose target failed, each once in walk order, and then just the deletions that failed, each once |
| OfflineScan.ScanIsExactIff | internal/storagepeer/peer.go:478-619 | with succeeding dispatches the index equals the tree on visible paths if and only if no remembered visible path that vanished begins with an underscore and every other one names its file |
| OfflineScan.StaysForEver | internal/storagepeer/peer.go:456-475 | a remembered path with an underscore that vanished is never forgotten |
| OfflineScan.SecondScanIsSilentIff | internal/storagepeer/peer.go:540-593 | a second start dispatches nothing if and only if no remembered path that vanished begins with an underscore |
| OfflineScan.TwinIsSkipped | internal/peer/base.go:194-209 | of two changed files with equal bytes whose names differ by a leading underscore the second is not sent, and yet counts as sent |
| OfflineScan.NeighbourIsDeleted | internal/storagepeer/peer.go:582-590 | with a vanished "_n" remembered, a start sends the deletion of the file "n" that is there, and forgets it |
| OfflineScan.NeighbourIsDeletedAgain | internal/storagepeer/peer.go:540-593 | every later start sends that file and its deletion again, and leaves the index as it was |
| Store.Seek | internal/storage/store.go:131-133 | finds the first key that is not less than the prefix |
| Store.HasPrefix | internal/storage/store.go:133-140 | the byte loop decides the prefix relation |
| Store.NothingAfter | internal/storage/store.go:132-144 | past the seek point, after a first key without the prefix no later key has it |
| Store.SelectIs | internal/storage/store.go:126-152 | the filter keeps the keys that begin with the prefix, all of them, in their order |
| Store.IteratePrefix | internal/storage/store.go:126-152 | visits, in order and once each, keys that begin with the prefix, up to the first failing callback; where none fails, all of them |
| Store.SettingsAreAMap | internal/peer/base.go:142-168 | under its own prefix, setting a key is a map update and deleting it a removal |
| Store.IndependentIffApart | internal/peer/base.go:166-168 | writes under one prefix never show under another if and only if neither is a prefix of the other |
| Store.DashFreeNamesAreApart | internal/peer/base.go:166-168 | different peer names without "-" have independent namespaces, for all types and base directories |
| Store.DashedNamesClash | internal/storagepeer/peer.go:550 | two names with which the keys of one peer are found by the other's scan for file stats |
| Mvcc.PutLoopSafe | internal/util/retry.go:116-172 | the retry loop commits at most once, from any attempt on and under any schedule |
| Mvcc.ResolveSafe | internal/couchdbpeer/conflict.go:58-156 | resolution commits at most once, over the revision it compared; a commit by timestamp replaces an older version |
| Mvcc.ForceSafe | internal/couchdbpeer/conflict.go:275-302 | a forced write replaces exactly the version that was passed to it, or nothing |
| Mvcc.PutDocumentIsSafe | internal/couchdbpeer/peer.go:426-469 | under any schedule: success is one commit over the revision read last or an accepted version without commit, an error is no commit; forced by timestamp, the stored mtime grows |
| Mvcc.DeleteLoopSafe | internal/couchdbpeer/peer.go:472-488 | the delete loop writes at most one tombstone, from any attempt on |
| Mvcc.ResolveDeleteSafe | internal/couchdbpeer/conflict.go:367-435 | resolving a delete conflict writes at most one tombstone, none if the remote version is accepted |
| Mvcc.DeleteDocumentIsSafe | internal/couchdbpeer/peer.go:472-531 | under any schedule: at most one tombstone, over the revision read last, and none on an error or an accepted version |
| Mvcc.ResolutionIsTheLastResort | internal/couchdbpeer/peer.go:426-469 | the strategy is asked only after four attempts, and an operation makes at most eleven calls |
| Mvcc.TimestampKeepsTheNewer | internal/couchdbpeer/conflict.go:123-156 | undisturbed, resolution by timestamp leaves the newer of the two versions, the remote one on a tie |
| Mvcc.DeleteStrategyDecides | internal/couchdbpeer/conflict.go:392-435 | undisturbed, a delete in conflict commits its tombstone by timestamp if and only if it is not older, with LocalWins always; it accepts the remote version exactly otherwise, with RemoteWins always; other strategies leave the log alone and fail |
| Mvcc.PutStrategyDecides | internal/couchdbpeer/conflict.go:100-182 | likewise for a Put, which needs to be newer, and fails without a write if its chunks cannot be written |
| Mvcc.DeleteObeysStrategy | internal/couchdbpeer/peer.go:472-531 | under any schedule a whole delete forces only with LocalWins, or by timestamp after a version that was not newer; it accepts only with RemoteWins, or by timestamp a version that is newer |
| Mvcc.PutObeysStrategy | internal/couchdbpeer/peer.go:426-469 | under any schedule a whole Put forces only with its chunks written, and with LocalWins or by timestamp after an older version; it accepts only with RemoteWins, or by timestamp a version that is not older |
| Mvcc.LocalCommitsIffUntouched | internal/couchdbpeer/conflict.go:58-121 | with LocalWins, whatever is written before, resolution commits if and only if nobody writes between its last read and its write |
| Mvcc.NewerCommitsIffUntouched | internal/couchdbpeer/conflict.go:123-156 | so it does by timestamp, where everything that others write is older |
| Mvcc.PutCommitsIffGap | internal/couchdbpeer/peer.go:426-469 | among live writes of others, a Put commits without the strategy if and only if one of its four attempts has nobody writing between its read and its write |
| Mvcc.DeleteCommitsIffGap | internal/couchdbpeer/peer.go:472-488 | so does a delete |
| Mvcc.LocalWinsInTheEnd | internal/util/retry.go:116-172 | after four lost attempts resolution goes on from there: with LocalWins Put and delete commit if and only if nobody writes before their last call |
| Mvcc.CancelledEnds | internal/util/retry.go:116-172 | a conflict at an attempt whose wait is cancelled ends Put and delete with that error |
| Mvcc.FailureEndsIff | internal/couchdbpeer/peer.go:418-423 | a failed write ends a Put at once, as that failure, if and only if the ID does not contain the word that marks a conflict |
| Mvcc.KeptRevisionDecides | internal/couchdbpeer/peer.go:430-442 | where the read fails, the revision read before decides: the write goes through if and only if it is current |
| Mvcc.DeletedMeanwhileFails | internal/couchdbpeer/peer.go:430-442 | a document that was deleted after a Put had read it is never written again by that Put |
| Mvcc.GoneIsReported | internal/couchdbpeer/conflict.go:58-98 | a document that is gone when resolution reads it is reported as missing, whatever the strategy, and nothing is written |
| Mvcc.UndisturbedPutReplacesAnything | internal/couchdbpeer/peer.go:430-442 | without a race the first attempt replaces any version, newer ones too |
| Mvcc.UndisturbedDeleteRemovesAnything | internal/couchdbpeer/peer.go:476-482 | and the first attempt of a delete removes any version |
| Mvcc.ForcedDeleteCanRemoveNewer | internal/couchdbpeer/peer.go:513-521 | a schedule in which a forced delete removes a version newer than the local one |
| CouchRetry.Server.PutAttempt | internal/couchdbpeer/peer.go:430-442 | one run of the closure, which keeps the revision it read last |
| CouchRetry.Server.RetryPut | internal/util/retry.go:116-172 | the loop over that closure computes the modelled retry |
| CouchRetry.Server.PutDocumentWithRetry | internal/couchdbpeer/peer.go:426-469 | the method computes the operation proved safe |
| CouchRetry.Server.ResolveConflict | internal/couchdbpeer/conflict.go:58-182 | the branches of resolution compute the modelled one |
| CouchRetry.Server.ForceUpdateRemote | internal/couchdbpeer/conflict.go:275-302 | the main document is put under the remote revision, unless a chunk failed |
| CouchRetry.Server.RetryDelete | internal/couchdbpeer/peer.go:476-488 | the delete loop computes the modelled retry |
| CouchRetry.Server.ResolveDeleteConflict | internal/couchdbpeer/conflict.go:367-435 | the strategies for deletes, with ties won by the delete |
| CouchRetry.Server.ForcedDelete | internal/couchdbpeer/peer.go:513-521 | reads the revision again and deletes under it |
| CouchRetry.Server.DeleteDocumentWithRetry | internal/couchdbpeer/peer.go:472-531 | the method computes the operation proved safe |
| Ids.PathRoundTripIff | internal/couchdbpeer/peer.go:916-925 | the feed turns an ID back into its path if and only if the path has no colon and no leading slash |
| Ids.DocIDInjective | internal/couchdbpeer/peer.go:1196-1201 | different storable paths have different IDs |
| Ids.ChunkIDInjective | internal/couchdbpeer/peer.go:1097 | a chunk ID determines its document and its index |
| Ids.DocIsNoChunk | internal/couchdbpeer/peer.go:1196-1201 | no document of a storable path has the ID of a chunk |
| Ids.NameHCollides | internal/couchdbpeer/peer.go:1097 | paths whose first name is "h" do collide with chunks |
| Pipeline.DecodeUndoesEncodeIff | internal/couchdbpeer/peer.go:990-1029 | decoding undoes encoding if and only if the data is not stored raw while being valid gzip of something else |
| ChunkStore.ChunksReadBack | internal/couchdbpeer/peer.go:1087-1113 | the chunks written are all there and, read in order, give the data |
| ChunkStore.InlineIff | internal/couchdbpeer/peer.go:677-718 | bytes are stored inline if and only if they are at most the chunk size or at most 51200; otherwise in just as many chunks as they need |
| ChunkStore.ChunkIs | internal/couchdbpeer/peer.go:1087-1113 | the k-th chunk holds the k-th slice of the data, of the chunk size but for the last |
| ChunkStore.OthersUntouched | internal/couchdbpeer/peer.go:1081-1133 | what happens to a document and its chunks changes no other document's bytes |
| ChunkStore.StoredRefinesUpdate | internal/couchdbpeer/peer.go:677-718 | writing inline or chunked, over anything, updates one path and no other, orphans staying invisible |
| ChunkStore.RemovedRefinesRemoval | internal/couchdbpeer/peer.go:736-783 | deleting chunks and document removes one path and no other |
| ChunkStore.RemovedIs | internal/couchdbpeer/peer.go:736-783 | a removal takes the document and all its chunks out of the store, and nothing else |
| ChunkStore.ReadBackAsCodedIff | internal/couchdbpeer/peer.go:1138-1164 | with chunks read as coded, a file comes back if and only if it was small enough to be inline |
| ChunkStore.ForcedKeepsContentIff | internal/couchdbpeer/conflict.go:186-302 | forcing keeps the local content if and only if the local document has no children or was empty, reused chunk IDs included |
| ChunkStore.ForcedDropsRemoteChunks | internal/couchdbpeer/conflict.go:186-302 | forcing leaves no remote chunk behind: what carries one of their IDs afterwards belongs to the document that was written |
| CouchPeer.PutRefinesIff | internal/couchdbpeer/peer.go:640-719 | Put with its bounded cache acts as a map update if and only if it does not bring back a content whose hash the cache holds for a deletion: the deletion mark, or an empty file where the feed reports deletions |
| CouchPeer.DeleteRefinesIff | internal/couchdbpeer/peer.go:722-783 | Delete acts as a removal if and only if the cache does not take the file for deleted |
| CouchPeer.HeardKeepsIff | internal/couchdbpeer/peer.go:866-985 | an entry of the feed, of whatever age, keeps cache and files in step if and only if it shows the present content |
| CouchPeer.FedKeeps | internal/couchdbpeer/peer.go:889-970 | an entry that shows its document as it is, live or deleted, of the peer or a chunk, keeps them in step |
| CouchPeer.LiveIsHandedOnIff | internal/couchdbpeer/peer.go:943-962 | an entry of a document for which Get answers is handed on if and only if the cache does not hold the answer for its path |
| CouchPeer.EchoOfPutIsDropped | internal/couchdbpeer/peer.go:943-962 | the feed entry of the peer's own Put is not handed on while its hash is in the cache |
| CouchPeer.SecondEntryIsDropped | internal/couchdbpeer/peer.go:943-962 | the second of two entries in a row about a document is never handed on |
| CouchPeer.EchoOfDeleteIsHandedOn | internal/couchdbpeer/peer.go:916-936 | the feed entry of the peer's own Delete is handed on, since a deletion record has another hash than the mark |
| CouchPeer.PathIsMostRecent | internal/peer/base.go:103-139 | Put, Delete and the feed make their path the one used most recently in the cache, repeats included |
| CouchPeer.LateEntryLosesPut | internal/couchdbpeer/peer.go:889-970 | after an entry with an older content, a Put of that content is lost |
| CouchPeer.BaseDirConverts | internal/util/path.go:10-37 | with a clean base directory different storable paths stay different, and a reported document that has a storable path is the document of that path |
| CouchPeer.RunsAnswerAsMap | internal/couchdbpeer/peer.go:640-985 | over contents that stand for no deletion, every run of Put, Delete and Get by global paths answers as a map from paths to bytes, wherever the entries of the feed fall and whatever the cache forgets |
| CouchPeer.AlwaysAnswersIff | internal/couchdbpeer/peer.go:640-985 | all runs from an empty database over a set of contents answer as a map if and only if the set lacks the deletion mark and, where the feed reports deletions, the empty file |
| CouchPeer.CouchPeer.Put | internal/couchdbpeer/peer.go:640-719 | the method reaches the modelled state and reports a skip exactly for a cached hash |
| CouchPeer.CouchPeer.PutChunked | internal/couchdbpeer/peer.go:1081-1133 | the splitting loop with its index arithmetic stores exactly the modelled chunks and document |
| CouchPeer.CouchPeer.ForceUpdateRemote | internal/couchdbpeer/conflict.go:186-302 | deletes the remote chunks, then stores the local bytes |
| CouchPeer.CouchPeer.DeleteChunks | internal/couchdbpeer/peer.go:757-770 | the loop removes exactly the listed chunks |
| CouchPeer.CouchPeer.Delete | internal/couchdbpeer/peer.go:722-783 | the method reaches the modelled state and reports whether a document was there and is gone |
| CouchPeer.CouchPeer.Get | internal/couchdbpeer/peer.go:786-816 | answers with the decoded bytes, or an error for a missing or undecodable document |
| CouchPeer.CouchPeer.HandleChange | internal/couchdbpeer/peer.go:889-970 | a live document under the base directory that decodes is handed to the hub, as the global form of its path with its data, if and only if the cache does not know its hash; so is the deletion of a document where the base directory is empty; nothing else is; afterwards the cache knows it |
| CouchPeer.CouchPeer.DispatchFrom | internal/peer/base.go:194-209 | a change is handed to the hub, under the path converted once more, if and only if the cache does not hold its hash, which is cached then |
| CouchPeer.CouchPeer.ReassembleChunks | internal/couchdbpeer/peer.go:1138-1164 | the buffer holds the chunks in order; a missing chunk is an error |
| ChangesFeed.StepKeepsInv | internal/couchdbpeer/peer.go:866-985 | handled, lost and open changes always add up to the checkpoint's distance from the start |
| ChangesFeed.HandledInOrder | internal/couchdbpeer/peer.go:819-987 | without restarts, whatever the disconnects, the handled changes are the log from the start, in order and once each |
| ChangesFeed.AtMostOnceAndFewLost | internal/couchdbpeer/peer.go:873-875 | with restarts each change is handled at most once, and at most one is lost per restart |
| ChangesFeed.CrashLosesOne | internal/couchdbpeer/peer.go:873-875 | a restart between saving and handling does lose a change |
| ChangesFeed.Watcher.WatchChanges | internal/couchdbpeer/peer.go:819-987 | one life of the process advances the checkpoint by all that its connections deliver, up to the end of the log, and handles these positions in order and once each, but for the last one exactly if a crash falls on it |
| ChangesFeed.Watcher.Live | internal/couchdbpeer/peer.go:373-415 | over any sequence of lives the checkpoint advances by all that is delivered, up to the end of the log; each change is handled at most once, and lost are exactly as many as lives that a crash cuts off within a change |
| Debounce.NoEventIsLost | internal/storagepeer/peer.go:374-392 | from the start, in every interleaving, a path with an event later than its last handling has an armed timer; events are handlings plus stopped and waiting timers |
| Debounce.UnknownWasDropped | internal/storagepeer/peer.go:374-392 | in every run, an armed timer that the map does not know was dropped from it by the cleanup of another timer of its path |
| Debounce.AtMostOneArmed | internal/storagepeer/peer.go:378-381 | where no cleanup has dropped a newer timer, at most one timer of each path is armed |
| Debounce.BurstsStartOnce | internal/storagepeer/peer.go:374-392 | in such runs processChange has started exactly once for every burst of events of a path, but for one that still waits with its timer armed |
| Debounce.EveryBurstStarts | internal/storagepeer/peer.go:374-392 | in every run it has started at least once for each burst, but for one that still waits |
| Debounce.DroppedTimerStartsAgain | internal/storagepeer/peer.go:384-390 | a run with a dropped timer in which two bursts start processChange three times |
| Debounce.StopIsCompleteIff | internal/storagepeer/peer.go:136-147 | after Stop no timer can fire if and only if every armed timer was still in the map; the map is empty, and no handling is cut off |
| Debounce.StopCanMissATimer | internal/storagepeer/peer.go:374-392 | an interleaving after which Stop leaves a timer armed |
| Debounce.Debouncer.DebounceEvent | internal/storagepeer/peer.go:374-392 | the timer that the map knew for the path is armed no longer, every other timer is as it was, and the map knows a new armed one; no event is lost |
| Debounce.Debouncer.TimerFires | internal/storagepeer/peer.go:384-385 | the handling of the path starts, handlings never exceed events, and no event is lost |
| Debounce.Debouncer.CleanUpTimer | internal/storagepeer/peer.go:387-390 | the path's entry is dropped, be it a newer timer's, and yet no event is lost |
| Debounce.Debouncer.Stop | internal/storagepeer/peer.go:141-147 | the loop stops exactly the armed timers that the map knows, and empties the map |
| Retry.LaterBackoffsAgree | internal/util/retry.go:174-181 | from the second wait on the loop's delay is the one that the formula gives, whatever the first delay |
| Retry.BackoffsAgreeIff | internal/util/retry.go:56-113 | the loop waits what the formula says at every attempt if and only if the first delay is within the cap |
| Retry.TotalWaitBounds | internal/util/retry.go:56-113 | the total wait is at most the capped sum and at most the geometric sum |
| Retry.TotalWaitIsGeometricIff | internal/util/retry.go:56-113 | the total wait is the geometric sum if and only if no delay exceeds the cap |
| Retry.CappedWaits | internal/util/retry.go:56-113 | from the first capped delay on each further attempt waits the cap |
| Retry.GeometricSumIs | internal/util/retry.go:174-181 | the geometric sum in closed form |
| Retry.Run | internal/util/retry.go:56-113 | between one and MaxRetries + 1 calls; the result is determined by the last call; the wait is the sum of the delays |
| Paths.JoinProper | internal/util/path.go:10-25 | joining a clean path to a base directory puts the names one after the other |
| PathClean.CleanMeans | internal/util/path.go:10-25 | cleaning puts any path into normal form, and the result leads where the path led, from every directory |
| PathClean.JoinMeans | internal/util/path.go:10-25 | joining leads where the first path does and on from there as the second says, for all strings |
| PathClean.LocalIsEmptyIff | internal/util/path.go:10-25 | the local form is empty if and only if the path is not rooted and leads nowhere from any directory |
| Paths.PlainIff | internal/util/path.go:10-37 | without a base directory a reported path means the same file everywhere if and only if it does not begin with an underscore |
| Paths.SpotIsNoLonger | internal/util/path.go:10-25 | no path is written to a longer one |
| Paths.GlobalUndoesLocalIff | internal/util/path.go:10-37 | a clean global path comes back from its local form if and only if the joined path does not begin with "_" |
| Paths.SecondConversionHarmlessIff | internal/peer/base.go:194-209 | converting a global path once more changes nothing if and only if it begins neither with "_" nor with a nonempty base directory |

## Left out

- Vault.Vault.Delete: does not cover the root itself; os.Remove then fails, or removes an empty vault.
- SyncPeers.StepIsLocal: with a full cache an action can also push out the hash of another path; Bridge.RunRefines says when that cannot happen.
- Echo.EchoBound: for caches that are maps; Bridge.BridgeEchoBound carries it over to bounded caches, and BridgeLimits.EchoesDieOutIff says how far.
- Echo.DispatchesConserved: for caches that are maps; Bridge.BridgeConserves carries it over to bounded ones.
- Echo.DeliveriesConserved: likewise.
- Settling.EventsAreBounded: for caches that are maps; Bridge.BridgeEchoBound has the bound for bounded caches.
- Settling.IdleGroupSettles: events are handled one at a time; Echo.EchoBound and Overlap.NetRunDecides have overlapping deliveries.
- Convergence.StepKeepsInv: an event and its deliveries are one step; Overlap.NetStepIsJudged has them as many.
- Convergence.Convergence: likewise, and on plain paths; Overlap.NetRunDecides and Bridge.BridgeDecides are the general results.
- Bridge.BridgeEchoBound: for paths without a leading underscore; UnderscoreEcho.AnyEchoBound has the others, at a price for user deletions too.
- Bridge.BridgeConserves: for paths without a leading underscore; a file whose cache entry another path takes over is dispatched more than once.
- BridgeLimits.EchoesDieOutIff: for paths without a leading underscore; for others UnderscoreEcho.AnyEchoBound is one direction, while the keys fit.
- Bridge.BridgeDecides: for events of one path that do not overlap; Heard.EveryRunIsDecided has all runs, by what each member heard.
- Heard.EveryRunIsDecided: for plain paths; BridgeLimits.AllDecidedIff shows what an underscore changes.
- UnderscoreEcho.AnyEchoBound: excludes names that are nothing or only dots after their underscores, which leave the root, and says nothing when the keys do not fit.
- Restarts.ConvergenceAcrossRestarts: restarts fall between actions; Crashes.ConvergenceAcrossCrashes has those that cut an event short. A stat that is taken while a user writes again is not modelled.
- Crashes.ConvergenceAcrossCrashes: one event at a time is cut short, and a failed delivery is followed by a restart; between two restarts events are handled one at a time, on plain paths and with caches that are maps.
- CouchRetry.Server.ForceUpdateRemote: the chunks are one flag here; CouchPeer.CouchPeer.ForceUpdateRemote has them.
- Settling.SettlingRunExists: names a run that settles, not that the scheduler takes it; any run does within the bound of Settling.EventsAreBounded.
- Retry.Run: integer delays and multipliers; float rounding and jitter are not modelled.
- CouchPeer.RunsAnswerAsMap: a single writer, the full read of chunks, a positive chunk size, and contents that survive the pipeline; the exact conditions are ChunkStore.ReadBackAsCodedIff, Pipeline.DecodeUndoesEncodeIff and CouchPeer.AlwaysAnswersIff. Entries of the feed that are out of date are in CouchPeer.HeardKeepsIff only.
- OfflineScan.ScanIsExactIff: every dispatch succeeds; what failing ones leave is in ScanFailures.StartLeaves and in the contracts of OfflineScan.Starting.ScanOfflineChanges and OfflineScan.Starting.ScanOfflineDeletions.
- ScanFailures.SecondStartSendsWhatFailed: for paths without a leading underscore; OfflineScan.NeighbourIsDeletedAgain shows what the others do.
- Mvcc.PutCommitsIffGap: others write live versions only and no call fails; a deletion in between is Mvcc.DeletedMeanwhileFails.
- A chunk size of zero or less: the configuration does not rule it out; the splitting loop then does not advance or goes out of range.
- CouchDB peers as members of the protocol model, and the metadata they keep about synced documents.
- Cryptography, gzip and base64: library code; base64 is dropped and the other two are encoder and decoder pairs.
- Network, HTTP, JSON and the CouchDB driver: only the contract of revisions is modelled. Attachments and bulk operations are not used by the peers.
- The retry loops of single chunk documents (putChunkWithRetry, deleteChunkWithRetry): chunks have one writer in the store model; under conflicts they only decide whether a forced write goes on.
- Chunks under conflicts: Delete removes chunks before a conflict is resolved, so a cancelled delete can leave a document without its chunks.
- The initial scan of a CouchDB peer: its search for deleted documents uses a prefix that no stored key has.
- Starting the feed from "now": changes made in the gap are not covered. Errors when the checkpoint is saved are ignored by the code and not modelled.
- File watching, hidden files in the watcher, symbolic links, permissions and partial writes: an event is a step of the model, and a file operation succeeds or fails as a whole.
- Directories and files in each other's way inside the protocol model, where paths are flat.
- Real time, goroutine scheduling, locks, logging, signals, configuration parsing and the command line.
- Text detection and unique strings: settled by reading one function each.
