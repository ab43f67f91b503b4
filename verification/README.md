# TermBridge verification

A Dafny model of the stateful core of TermBridge, with proofs of what it keeps: the browser's
workspace file caches and the change feed behind them, optimistic saving, the tunnel between
cloud and agent, the Git status reader, argument quoting, and the bounded queues and schedulers
of the web client. `dafny verify dfyconfig.toml` checks all of it.

Code that changes state in place is a class with the source's fields, each method proved against
a function on values; the properties are proved about those functions over whole runs. Code that
computes by recursion or branching is functions and lemmas. What several goroutines or the browser
and the server do together is a state machine whose steps are the sections that run undisturbed:
a mutex section, one channel operation, or a stretch of browser code between two `await`s.

## What is modelled

| modules | subject |
|---|---|
| Ordered, Paths, Changes, Invalidation, FileCache | insertion-ordered maps, workspace paths, change events, the tables of the file provider |
| CacheAccounting, Provider | limits, byte counting and agreement of the caches; the provider class |
| Watch, WatchLaws, WatchManager | the root watcher at the grain of channel operations; the class that runs it |
| ChangeClient, ChangeFeed, FeedLaws | the reconnecting client, the bridge, and the feed from notification to callback |
| CacheEpochs, Coherence, CoherenceLaws, StaleResponses | caches against the remote workspace, with requests and the feed in between |
| LateCompletions | answers that arrive after another workspace was bound |
| Reports | from a kernel notification to what FileService is told and what the caches lose |
| Storing, LocalChanges | what answers to reads and to local changes store and take away, exactly |
| Saves, SaveLaws | reads and saves against a store that compares revisions, with other writers |
| Tunnel, Correlation, AgentRoutes | tunnel frames, the requests of one route, its tables |
| Porcelain, WorkspaceScope, ScmGroups | `git status --porcelain=v1 -z`, workspace paths, source control groups |
| CommandText, PosixCommands, WindowsCommands, Text | command text from arguments and back |
| WriteQueue | the terminal's write queue with replay restore |
| HotSessions, KeepAlive | the choice of hot terminals and its controller |
| FileSearch | the budgeted file-name search |
| CopyNames, DeviceRoutes, Connector, RepositoryLocks, Common | copy names, device routes, connector generations, repository locks |

## Where the code does less than one might expect

The lemmas named state exactly when each of these happens, and show a run where the condition alone
does not.

- A watcher's stream has a gap before its final rescan exactly when the consumer has received a
  change after the drain had discarded an older one (`WatchLaws.GapExactlyWhenOvertaken`,
  `WatchLaws.GapExactlyByActions`, `WatchLaws.GapWitness`). The client notices it by the number.
- The watcher ignores every file whose name has the form of the agent's own temporary files,
  whoever made it. A change is covered exactly when its name is not of that form
  (`FeedLaws.NotifiedChangeCovers`), and a listing can lack such a file for good
  (`CoherenceLaws.TemporaryChangeWitness`, `CoherenceLaws.TemporaryChangeExample`).
- After the delete event of a directory, the answer to a request in flight for a path below it is
  still kept exactly when no table knows that path
  (`StaleResponses.DescendantKeptExactlyIfUnknown`, `StaleResponses.DescendantKeptWitness`).
- A listing on its way while a file is written, or a directory created, in its directory is cached when
  it comes, though the new name may be missing from it; exactly a write answered without a stat, and
  any deletion, cuts it off (`LocalChanges.ListingOverWriteKeptExactly`,
  `LocalChanges.ListingOverMutationKeptExactly`). After a rename into another directory the listing
  of that directory is kept in the same way (`LocalChanges.ListingOverRenameKeptExactly`).
- A local deletion of a directory clears what a change of its path affects and nothing below it
  (`LocalChanges.DeleteForgetsExactly`); what is cached below goes when the watcher reports the
  deletion (`Reports.ChangeClearsExactly`).
- The comment on `clearCaches` (web/src/features/workbench/platformFileSystemProvider.ts:93-94)
  says that no response begun for an earlier binding may reach the caches or a write base. Stats,
  listings and reads keep to that. Writes, new directories and renames compare no epochs: answered
  with a stat after another workspace was bound, each stores what it would have stored before
  (`LateCompletions.FirstCompletionAddsExactly`, `LateCompletions.LateCompletionAddsExactly`,
  `SaveLaws.WriteCrossesWitness`, `LateCompletions.MkdirCrossesWitness`,
  `LateCompletions.RenameCrossesWitness`). For saves this means a base that the bound workspace
  has not shown (`SaveLaws.CompletionKeepsOwnBasesExactly`).
- The status reader does not look at the byte between status and path, and takes an empty rename
  source (`Porcelain.AcceptsExactly`). Unmerged changes appear in no group
  (`ScmGroups.MissingExactly`).
- Outside Windows, parentheses, dollar signs and backquotes do not make the encoder quote a value.
  A splitter that expands nothing reads it as given, a shell would not
  (`PosixCommands.CommandRoundTrip`, `PosixCommands.BareExpansionWitness`).
- On Windows a program name is not read back as given exactly when it needs quotes and holds a mark
  or ends in a backslash (`WindowsCommands.CommandRoundTripExactly`).
- Chunks of the terminal are queued for good exactly when the terminal is disposed while a restore
  waits for the chunk in flight, and chunks were accepted since that restore
  (`WriteQueue.IdleQueueIsEmptyExactly`, `WriteQueue.IdleChunksAreNeverShown`,
  `WriteQueue.StuckWitness`).
- A terminal whose dispose timer fired while its session is open gets a new stamp at the next
  reconciliation, and is hot again exactly when fewer than the limit are ahead of that stamp
  (`KeepAlive.TerminalKeepAliveController.DisposedSessionReturns`,
  `KeepAlive.DisposedSessionReturnsExample`).
- A file search reports no limit although matches are missing exactly when the budget holds fewer
  matches than wanted and the others lie inside the entry that the budget ended with
  (`FileSearch.SilentlyIncompleteExactly`, `FileSearch.SilentlyIncompleteWitness`).
- The device registry calls a connected device offline exactly when a tunnel marked it so after
  the last registration; what is reported follows the route table
  (`DeviceRoutes.WronglyOfflineExactly`, `DeviceRoutes.LateMarkWitness`,
  `DeviceRoutes.ReportedStatusFollowsTable`).

One assumption matters: the ids of tunnel streams are clock readings, taken to be distinct. Used
twice, an id lets the second request return the answer to the first
(`Correlation.LateReplyWitness`).

## Model

| member | source | states |
|---|---|---|
| CacheAccounting.EveryRunIsSound | web/src/features/workbench/platformFileSystemProvider.ts:139-166 | Over every run of provider operations all entry limits and the 16 MiB byte limit hold, and a cached content and a cached stat of one path never differ in time or size |
| CacheAccounting.CachedContentIsServed | web/src/features/workbench/platformFileSystemProvider.ts:358-375 | A content that is cached after any run is served: the exit for contents that do not match their stat is never taken |
| CacheAccounting.EvictKeepsNewest | web/src/features/workbench/platformFileSystemProvider.ts:147-161 | Eviction ends with the longest run of newest entries that meets both limits: every shorter drop would still be over a limit |
| CacheAccounting.RememberedContentKept | web/src/features/workbench/platformFileSystemProvider.ts:147-161 | A content just remembered stays cached if and only if it fits the byte limit on its own |
| CacheAccounting.TotalAfterDelete | web/src/features/workbench/platformFileSystemProvider.ts:139-145 | What deleting a content takes off the byte counter is what the sum over the cached contents loses, and nothing when it was not cached |
| CacheAccounting.TotalAfterPut | web/src/features/workbench/platformFileSystemProvider.ts:147-152 | What remembering a content adds to the counter is what the sum gains after the old entry of the path has gone |
| CacheAccounting.NeverDeletesRoot | web/src/features/workbench/platformFileSystemProvider.ts:251-297 | No change event, however malformed, makes the provider report the workspace root as deleted |
| Ordered.TrimOldestEntries | web/src/features/workbench/platformFileSystemProvider.ts:630-638 | The loop that deletes first keys ends with exactly the newest entries up to the limit, in order |
| Ordered.NewestSurvivesTrim | web/src/features/workbench/platformFileSystemProvider.ts:320-335 | Trimming to a limit of at least one never removes the entry just stored |
| Provider.PlatformFileSystemProvider.Bind | web/src/features/workbench/platformFileSystemProvider.ts:86-105 | Every table, every write base and every request in flight is forgotten and the global epoch moves, so nothing begun before matches |
| Provider.PlatformFileSystemProvider.DeleteContent | web/src/features/workbench/platformFileSystemProvider.ts:139-145 | The entry goes and the byte counter stays equal to the sum of the cached lengths |
| Provider.PlatformFileSystemProvider.RememberContentEntry | web/src/features/workbench/platformFileSystemProvider.ts:147-161 | The counter stays exact through the eviction loop, which ends with both limits met and keeps the newest entries |
| Provider.PlatformFileSystemProvider.TouchCachedContent | web/src/features/workbench/platformFileSystemProvider.ts:163-166 | A served content becomes the newest without any other entry or the counter changing |
| Provider.PlatformFileSystemProvider.ForgetCachedPath | web/src/features/workbench/platformFileSystemProvider.ts:115-119 | Stat, content and listing of the path go; write bases and epochs stay |
| Provider.PlatformFileSystemProvider.MarkSubtree | web/src/features/workbench/platformFileSystemProvider.ts:181-195 | Exactly the known paths of the subtree and the path itself get a new epoch |
| Provider.PlatformFileSystemProvider.ForgetSubtree | web/src/features/workbench/platformFileSystemProvider.ts:197-210 | Exactly the cached entries of the subtree go, in whatever table they are |
| Provider.PlatformFileSystemProvider.InvalidateOne | web/src/features/workbench/platformFileSystemProvider.ts:298-307 | The path and its parent directory get new epochs and lose what a change of the path touches, while the write base is kept |
| Provider.PlatformFileSystemProvider.InvalidateSubtree | web/src/features/workbench/platformFileSystemProvider.ts:309-318 | As for one path, for all known paths below it, write bases kept |
| Provider.PlatformFileSystemProvider.ForgetMutated | web/src/features/workbench/platformFileSystemProvider.ts:241-249 | After a local mutation the write base of the path goes as well |
| Provider.PlatformFileSystemProvider.Rescan | web/src/features/workbench/platformFileSystemProvider.ts:212-227 | All caches go, the global epoch moves, and the root is reported as updated |
| Provider.PlatformFileSystemProvider.ApplyWorkspaceChange | web/src/features/workbench/platformFileSystemProvider.ts:251-297 | Caches and epochs after each kind of change, and exactly what FileService is told: of an addition, update or deletion by that event for that path, of a rename first the deletion of the old and then the addition of the new path, and the update of the root alone for a rescan or an unusable path |
| Provider.PlatformFileSystemProvider.RememberBase | web/src/features/workbench/platformFileSystemProvider.ts:121-128 | Only a non-empty etag becomes a write base, as the newest of at most 512 |
| Provider.PlatformFileSystemProvider.RememberStatOf | web/src/features/workbench/platformFileSystemProvider.ts:320-329 | The stat becomes the newest and a content that no longer agrees with it goes, with the counter kept exact |
| Provider.PlatformFileSystemProvider.RememberContentOf | web/src/features/workbench/platformFileSystemProvider.ts:337-356 | Content, write base and a stat brought into agreement with the content, with the counter kept exact |
| Provider.PlatformFileSystemProvider.StatStart | web/src/features/workbench/platformFileSystemProvider.ts:381-394 | A cached stat is returned, a request in flight is joined, otherwise one is sent that carries the epochs of its start |
| Provider.PlatformFileSystemProvider.StatComplete | web/src/features/workbench/platformFileSystemProvider.ts:394-417 | The response is kept exactly if both epochs are those of the start; a failure forgets the path |
| Provider.PlatformFileSystemProvider.ReaddirComplete | web/src/features/workbench/platformFileSystemProvider.ts:432-457 | A truncated listing is an error and is never kept; a complete one is kept exactly if both epochs are those of the start |
| Provider.PlatformFileSystemProvider.CachedContentOf | web/src/features/workbench/platformFileSystemProvider.ts:358-375 | Whatever content is cached for the path is returned and becomes the newest |
| Provider.PlatformFileSystemProvider.ReadComplete | web/src/features/workbench/platformFileSystemProvider.ts:472-506 | Content, stat and write base are taken over exactly if both epochs are those of the start |
| Provider.PlatformFileSystemProvider.WriteStart | web/src/features/workbench/platformFileSystemProvider.ts:508-519 | The etag sent is the base of the path, and using it makes it the newest base |
| Provider.PlatformFileSystemProvider.WriteComplete | web/src/features/workbench/platformFileSystemProvider.ts:520-542 | A write answered with a stat stores it, the content and the new base; one answered without forgets the path; a failed one changes nothing; an update of the path is reported exactly for an answered one |
| Provider.PlatformFileSystemProvider.MkdirComplete | web/src/features/workbench/platformFileSystemProvider.ts:544-565 | A created directory stores its stat and is reported as added, and a failure changes and reports nothing |
| Provider.PlatformFileSystemProvider.DeleteComplete | web/src/features/workbench/platformFileSystemProvider.ts:567-578 | A completed delete clears exactly what a change of its path affects, forgets its base and no other, and is reported; a failed one changes and reports nothing |
| Provider.PlatformFileSystemProvider.RenameComplete | web/src/features/workbench/platformFileSystemProvider.ts:580-617 | The old path and its base go, the cached content moves with the etag of the answer, limits, counter and agreement still hold, and the deletion of the old path is reported before the addition of the new one |
| LocalChanges.DeleteForgetsExactly | web/src/features/workbench/platformFileSystemProvider.ts:567-572 | A deletion that succeeds clears exactly what a change of its path affects, in-flight answers included, and forgets its base and no other; a failed one does nothing |
| LocalChanges.WriteForgetsExactly | web/src/features/workbench/platformFileSystemProvider.ts:508-542 | An answered write takes the listing of its directory and cuts off earlier answers for its path; answered without a stat it clears exactly what a change of the path affects and forgets its base; a failed one does nothing |
| LocalChanges.WriteStoresExactly | web/src/features/workbench/platformFileSystemProvider.ts:520-537 | A write answered with a stat leaves that stat, the written content if it fits 16 MiB, and the etag as the base; while there is room nothing else but the listing of its directory is touched |
| LocalChanges.RenameForgetsExactly | web/src/features/workbench/platformFileSystemProvider.ts:580-617 | An answered rename clears all that a change of the old path affects, forgets its base and the listing that the new name joins; answered without a stat it also forgets exactly the new path; a failed one does nothing |
| LocalChanges.RenameStoresExactly | web/src/features/workbench/platformFileSystemProvider.ts:593-611 | A rename answered with a stat leaves it under the new path and moves the cached content there, with its own time and size where the answer has none and the etag as its base |
| LocalChanges.RenameKeepsOthers | web/src/features/workbench/platformFileSystemProvider.ts:580-617 | While there is room, a rename touches nothing but the new path, what the old one affects and the listing that the new name joins |
| LocalChanges.MkdirMarksExactly | web/src/features/workbench/platformFileSystemProvider.ts:544-549 | Asking for a new directory takes the listing of its parent and moves the epoch of its own path, and nothing else |
| LocalChanges.FailedStatForgetsExactly | web/src/features/workbench/platformFileSystemProvider.ts:398-412 | A failed stat forgets exactly what is cached of the path and its base, and moves no epoch |
| LocalChanges.BindForgetsAll | web/src/features/workbench/platformFileSystemProvider.ts:86-105 | After a binding nothing is cached, no table knows any path, and no answer from before is in time |
| LocalChanges.ListingOverWriteKeptExactly | web/src/features/workbench/platformFileSystemProvider.ts:520-540 | A listing of the directory that was on its way while a write in it was answered is cached when it comes, although the written name may be missing from it, except exactly if the answer came without a stat |
| LocalChanges.ListingOverMutationKeptExactly | web/src/features/workbench/platformFileSystemProvider.ts:544-572 | So is one on its way while a directory was created in it; one on its way while something was deleted in it never is |
| LocalChanges.ListingOverRenameKeptExactly | web/src/features/workbench/platformFileSystemProvider.ts:580-592 | After an answered rename a listing on its way of the directory that the new name joins is cut off if and only if that directory is the old path or the one that the old path was in |
| Storing.ReadStoresExactly | web/src/features/workbench/platformFileSystemProvider.ts:472-506 | A read answered in time leaves its stat, the content if it fits 16 MiB, and its etag as the base; while there is room nothing of another path is touched; a failed or late one leaves everything as it was |
| Storing.StatStoresExactly | web/src/features/workbench/platformFileSystemProvider.ts:394-417 | A stat answered in time is cached, and a cached content of the path stays exactly if its time and size agree with it |
| Storing.ListingStoresExactly | web/src/features/workbench/platformFileSystemProvider.ts:432-457 | A complete listing answered in time is cached; a truncated or late one changes nothing |
| Storing.PutOrder | web/src/features/workbench/platformFileSystemProvider.ts:163-166 | Storing a value makes its key the newest and leaves all others in their order |
| Storing.TrimIsSuffix | web/src/features/workbench/platformFileSystemProvider.ts:630-638 | Trimming keeps exactly the newest entries up to the limit, in order and unchanged |
| Storing.ServedIsNewest | web/src/features/workbench/platformFileSystemProvider.ts:163-166 | A served content becomes the newest one; all values and the order of the others stay |
| Storing.SentBaseIsNewest | web/src/features/workbench/platformFileSystemProvider.ts:130-137 | So does a write base that is sent |
| Storing.ReadThenSave | web/src/features/workbench/platformFileSystemProvider.ts:472-519 | A save after a read in time goes through both looks and replaces the file, as long as nobody has changed it since: the read leaves the base that the save needs |
| Storing.SaveThenSave | web/src/features/workbench/platformFileSystemProvider.ts:508-542 | So does the next save after one that was answered |
| WatchLaws.StreamShape | internal/agent/infrastructure/workspacewatch/manager.go:188-210 | Over every interleaving of publish, consume, drain, subscribe and close: a stream is increasing, its only rescan is last, its queue fits the channel, the channel closes at most once and exactly once when the root is closed, nothing is missing while it is open, and once something was discarded a rescan is there or owed |
| WatchLaws.EveryRunKeeps | internal/agent/infrastructure/workspacewatch/manager.go:293-402 | Every step of the watcher at channel grain keeps the invariant behind that |
| WatchLaws.GapExactlyWhenOvertaken | internal/agent/infrastructure/workspacewatch/manager.go:317-332 | What a consumer has received is free of gaps if and only if it never received a change after the drain had discarded an older one |
| WatchLaws.GapExactlyByActions | internal/agent/infrastructure/workspacewatch/manager.go:317-332 | The same read off the actions: a gap if and only if some receive of that subscriber found a change after some drain step had taken an older one from its channel |
| WatchLaws.GapWitness | internal/agent/infrastructure/workspacewatch/manager.go:322-332 | Such an interleaving exists: the drain discards change 1 and the consumer receives change 2 |
| WatchLaws.SendsGoThrough | internal/agent/infrastructure/workspacewatch/manager.go:293-341 | At every step the rescan send finds room, and no send is aimed at a closed channel |
| WatchLaws.NothingFollowsRescan | internal/agent/infrastructure/workspacewatch/manager.go:317-341 | Once a stream ends in a rescan, no later step adds to it |
| WatchManager.RootWatcher.NewSubscription | internal/agent/infrastructure/workspacewatch/manager.go:188-210 | A fresh id with an empty stream, unless the root is closed |
| WatchManager.RootWatcher.Publish | internal/agent/infrastructure/workspacewatch/manager.go:293-309 | With room in every channel each open one gets the change with the next number; one full channel ends the root with a rescan for all |
| WatchManager.RootWatcher.SendToAll | internal/agent/infrastructure/workspacewatch/manager.go:300-308 | The loop is a run of the channel machine and succeeds exactly if all channels had room |
| WatchManager.RootWatcher.PublishRescanAndCloseLocked | internal/agent/infrastructure/workspacewatch/manager.go:317-341 | Every open channel ends up holding the rescan alone and closed, and the root is closed |
| WatchManager.RootWatcher.DrainAndSend | internal/agent/infrastructure/workspacewatch/manager.go:322-332 | One channel is emptied and holds only the rescan; the others are untouched |
| WatchManager.RootWatcher.PublishRescanAndClose | internal/agent/infrastructure/workspacewatch/manager.go:311-315 | As above under the lock; a closed root stays as it is |
| WatchManager.RootWatcher.Unsubscribe | internal/agent/infrastructure/workspacewatch/manager.go:343-360 | The channel closes once, and the root with the last subscriber |
| WatchManager.RootWatcher.Close | internal/agent/infrastructure/workspacewatch/manager.go:362-376 | Every open channel is closed once and the root with them |
| ChangeClient.Backoff | web/src/features/workbench/api.ts:153-163 | After n failures in a row the next delay is 250 ms doubled n times, at most 5 s, for every n |
| ChangeClient.BackoffAfterOpen | web/src/features/workbench/api.ts:189-195 | Once a connection has opened the delays start over: after n further failures 250 ms doubled n times, at most 5 s |
| ChangeClient.WorkspaceChangeSubscription.OnMessage | web/src/features/workbench/api.ts:196-223 | A frame of the current socket raises the rescan alarm exactly for a rescan, an undecodable frame or an unexpected number, then hands the change on; other frames have no effect |
| ChangeClient.WorkspaceChangeSubscription.HandleDisconnect | web/src/features/workbench/api.ts:165-175 | Expected number forgotten, exactly a rescan and then a disconnect reported, one reconnect timer pending with the delay doubled |
| ChangeClient.WorkspaceChangeSubscription.Connect | web/src/features/workbench/api.ts:177-188 | A failing socket constructor is a disconnect; an owner that has closed gets no socket |
| ChangeClient.WorkspaceChangeSubscription.OnOpen | web/src/features/workbench/api.ts:189-195 | Only the current socket resets the delay to 250 ms and the expectation |
| ChangeClient.WorkspaceChangeSubscription.OnClose | web/src/features/workbench/api.ts:224-229 | Only the close of the current socket is a disconnect |
| ChangeFeed.BridgeWorkspaceChanges | internal/agent/api/handler/workspace_events.go:17-49 | The frames sent are the initial rescan and then each change of the subscription as it is, a change of no kind as a rescan with the same number and paths; or a prefix of that when a write fails |
| ChangeFeed.TemporaryFileExactly | internal/agent/infrastructure/workspacewatch/manager.go:430-433 | The names that the watcher ignores are exactly those of the form ….termbridge-….tmp, in any directory |
| FeedLaws.NoSilentLoss | internal/agent/infrastructure/workspacewatch/manager.go:235-341 | Over every run of the feed, an item that something under way will drop stays so until the client drops it or the owner closes |
| FeedLaws.EveryChangeIsAccountedFor | internal/agent/infrastructure/workspacewatch/manager.go:235-270 | A notified change under no temporary name, whatever happened before and after, is on its way, covered by a rescan or a close on its way or by the rescan that the next connection begins with, or the client has dropped all it affects |
| FeedLaws.NotifiedChangeCovers | internal/agent/infrastructure/workspacewatch/manager.go:235-270 | A notification under its own name, be it one a change event can carry or one the agent cannot express, leads to something that covers what the change affects if and only if the name is not a temporary one |
| FeedLaws.NextConnectionComes | web/src/features/workbench/api.ts:153-187 | After the first attempt, whatever happens: an open client without a connection has a timer pending whose attempt starts one |
| FeedLaws.DeliveredInOrder | internal/agent/api/handler/workspace_events.go:17-49 | On one connection, up or ended by the server, the client receives the initial rescan and then a prefix of the changes its subscription yielded, each as it was published, in order and without repetition; and the last changes handed over are exactly the readable ones received |
| FeedLaws.AlarmExactly | web/src/features/workbench/api.ts:196-223 | A received frame raises the alarm if and only if it cannot be read, is a rescan, or does not carry the successor of the number received before it on the connection; a readable one is then handed over |
| FeedLaws.LossIsTold | web/src/features/workbench/api.ts:165-195 | However a connection ends or fails to begin, an open client reports a rescan and then a disconnect; once one is open the delay starts over |
| Reports.NotifiedChangeIsTold | web/src/features/workbench/platformFileSystemProvider.ts:251-297 | From the kernel notification to FileService: a change under its own name that can be published is told by exactly one event for its path, an addition if something was created, a deletion if something was removed and nothing created, else an update; only a gap in the numbers puts an update of the root before it |
| Reports.HandledExactly | internal/agent/infrastructure/workspacewatch/manager.go:235-270 | A notification under its own name is published as one change with the next number, its path and that kind to every open channel, if and only if it lies in the workspace, is no rename and what was created can be watched; otherwise the root ends in a rescan |
| Reports.RescanIsTold | web/src/features/workbench/platformFileSystemProvider.ts:212-227 | A rescan makes FileService update the root and nothing else |
| Reports.DisconnectIsTold | web/src/features/workbench/api.ts:165-175 | So does a lost connection, over which nothing stays cached and no answer on its way is kept |
| Reports.FiredIsAnnounced | web/src/features/workbench/platformFileSystemProvider.ts:251-297 | What is fired depends on kind and paths of the change alone, the same whatever is cached |
| Reports.ChangeClearsExactly | web/src/features/workbench/platformFileSystemProvider.ts:251-318 | An addition or update clears exactly what a change of its path affects; a deletion that and everything below the path, with the epochs of exactly the known paths there; a rescan everything; write bases always stay |
| Reports.RenameClearsExactly | web/src/features/workbench/platformFileSystemProvider.ts:281-292 | A rename clears exactly what a deletion of the old and a deletion of the new path clear |
| CoherenceLaws.CacheCoherence | web/src/features/workbench/platformFileSystemProvider.ts:381-506 | Over every run of requests, answers, completions, rebinds, remote changes, feed steps and rescans: a cached stat, content or listing equals the remote value unless something that will drop it is still under way or a change under a temporary name has affected it |
| CoherenceLaws.QuietCacheIsExact | web/src/features/workbench/platformFileSystemProvider.ts:251-307 | With nothing under way on a live connection every cached item that no change under a temporary name has affected is the remote value |
| CoherenceLaws.HiddenIsTemporary | internal/agent/infrastructure/workspacewatch/manager.go:235-238 | The exception is no wider than that: only paths with temporary names that have changed in the run count |
| CoherenceLaws.TemporaryChangeWitness | internal/agent/infrastructure/workspacewatch/manager.go:430-433 | And it is real: a file with such a name appears, the feed falls quiet, and the cached listing of the root still lacks it |
| CoherenceLaws.TemporaryChangeExample | internal/agent/infrastructure/workspacewatch/manager.go:430-433 | Such a run from a concrete empty workspace |
| Paths.ParentIsDirectory | web/src/features/workbench/platformFileSystemProvider.ts:229-239 | The parent of a directory, a slash and a name is that directory, and a single name has the root for parent, where no backslash is involved |
| Paths.ParentOfCanonical | web/src/features/workbench/platformFileSystemProvider.ts:229-239 | The parent of every path that a change event can name is the directory that holds it |
| Paths.NormalizeExactly | web/src/features/workbench/platformFileSystemProvider.ts:654-666 | A path is usable if and only if it is names joined by slashes, none of them empty, a dot or two dots, with any number of slashes behind and no backslash or NUL; it is normalised to the names alone |
| Paths.RelativePathExactly | internal/agent/model/task/file/path.go:11-32 | The agent accepts exactly names joined by slashes, without colon, backslash or NUL |
| CoherenceLaws.SystemStepKeeps | web/src/features/workbench/platformFileSystemProvider.ts:173-227 | Each single step of browser, server and feed keeps coherence of caches and of pending answers |
| CacheEpochs.ChangeEffects | web/src/features/workbench/platformFileSystemProvider.ts:251-318 | A change event clears everything it stands for, together with the epochs of requests begun before, and adds nothing |
| StaleResponses.StaleResponseNeverEnters | web/src/features/workbench/platformFileSystemProvider.ts:394-506 | A response begun before its path, or everything, was invalidated never enters a cache, whatever it holds and whatever operations ran before and after, local mutations included |
| StaleResponses.DescendantKeptExactlyIfUnknown | web/src/features/workbench/platformFileSystemProvider.ts:181-195 | After the delete event of a directory, a stat, a complete listing or a fitting content of a path below it that was requested earlier is still kept if and only if no table knew that path |
| StaleResponses.DescendantKeptWitness | web/src/features/workbench/platformFileSystemProvider.ts:181-195 | A provider that knows nothing yet keeps such a response |
| SaveLaws.SavesReplaceOnlyWhatWasSeen | internal/agent/application/user/runtime_file_git.go:72-98 | Over every run of reads, saves, foreign changes, watch events, evictions, failures and rebinds: a save changes no other path, removes nothing, and replaces only a file whose revision is the non-empty etag that came with bytes this client read or wrote at that path |
| SaveLaws.UnseenContentSurvives | internal/agent/application/user/runtime_file_git.go:90-104 | Bytes this client never had at a path of the workspace are never replaced by its saves, as long as no write completed after its workspace was left |
| SaveLaws.EveryRunIsSafe | web/src/features/workbench/platformFileSystemProvider.ts:508-533 | Every step keeps all write bases, and the etags of all saves in flight, among those the client has been given with bytes |
| SaveLaws.CommitExactly | internal/agent/application/user/runtime_file_git.go:90-104 | At the second look a write takes effect if and only if the file still has the revision it was based on, or the path is still free |
| SaveLaws.RefusalNames | internal/agent/application/user/runtime_file_git.go:90-104 | A commit that does not go through is refused as not found, existing, no file or in conflict, exactly by what it found instead of the expected revision |
| SaveLaws.SaveSucceedsExactly | internal/agent/application/user/runtime_file_git.go:72-104 | Without foreign changes in between, a save succeeds if and only if the path is free and may be created, or holds the version the base names and may be overwritten |
| SaveLaws.LostBaseIsRefused | internal/agent/application/user/runtime_file_git.go:76-98 | A save without a base is refused once the path exists, even if it appears between the two looks |
| SaveLaws.WatchKeepsBases | web/src/features/workbench/platformFileSystemProvider.ts:298-318 | No change event and no rescan adds, advances or drops a write base |
| SaveLaws.PlainKeepsBases | web/src/features/workbench/platformFileSystemProvider.ts:121-137 | Only completed reads and writes can set a base; every other operation leaves or drops bases |
| SaveLaws.WriteIsServed | web/src/features/workbench/platformFileSystemProvider.ts:520-537 | Written bytes within the byte limit are what the next read of the path is given |
| SaveLaws.CompletionKeepsOwnBasesExactly | web/src/features/workbench/platformFileSystemProvider.ts:92-105 | A completed write leaves only bases of the bound workspace if and only if it failed, carried no etag, was made for that workspace, or its etag was shown there too |
| LateCompletions.LateCompletionAddsExactly | web/src/features/workbench/platformFileSystemProvider.ts:381-617 | A completion begun before another workspace was bound, at any time after it: each item holds exactly what a write, new directory or rename answered with a stat stores (its stat; the content if it fits and, for a rename, if the source is cached; the base if the etag is not empty) or nothing new, and something is added if and only if that differs from what is there |
| LateCompletions.FirstCompletionAddsExactly | web/src/features/workbench/platformFileSystemProvider.ts:86-105 | Right after a binding a completion begun before it adds an item or a base if and only if it is a write, a new directory or a rename that was answered with a stat; stats, listings and reads never do |
| LateCompletions.StoresExactly | web/src/features/workbench/platformFileSystemProvider.ts:520-617 | What each completion without matching epochs leaves under every item and every path, in any tables |
| LateCompletions.MkdirCrossesWitness | web/src/features/workbench/platformFileSystemProvider.ts:544-565 | The stat of a directory created in one workspace is cached for the next one, from any tables |
| LateCompletions.RenameCrossesWitness | web/src/features/workbench/platformFileSystemProvider.ts:580-617 | So is the stat of a renamed file |
| SaveLaws.WriteCrossesWitness | web/src/features/workbench/platformFileSystemProvider.ts:508-533 | A write sent to one workspace that completes after another was bound puts its base and its content into the caches of the other |
| Tunnel.EveryAcceptedRequestIsAnswered | internal/agent/application/user/cloud_client.go:288-605 | The four lists of payloads agree: each accepted request is answered by a sendable frame that fits it, that the cloud recognises, and that carries what the runtime gave: its very body, the trimmed code and message of its typed error or the defaults, or that no runtime is available |
| Tunnel.EveryCallIsListed | internal/cloud/api/handler/route.go:288-326 | All 29 calls are in the accepting, handling, framing and recognising lists |
| Tunnel.ErrorsSaySomething | internal/agent/application/user/cloud_client.go:470-484 | Every runtime error reaches the caller with a code and a message that are neither blank nor padded |
| Text.TrimIsExact | internal/agent/application/user/cloud_client.go:474-480 | Trimming takes all blanks at either end and nothing else |
| Correlation.RequestsGetTheirOwnAnswers | internal/cloud/api/handler/route.go:63-122 | For every interleaving with distinct stream ids: a request returns at most the first frame offered to it, which the agent made while handling that very request; a returned response carries the body that the runtime gave for it; the table holds exactly the requests under way |
| Correlation.FirstReplyIsNotLost | internal/cloud/api/handler/route.go:82-90 | A waiting request can return if and only if some frame was offered to it |
| Correlation.DemuxNeverBlocks | internal/cloud/api/handler/route.go:102-112 | At every step of every run the demultiplexer can take the next frame, or the one under way, off its hands by its own steps alone, leaving the table, every caller and the agent where they are, but for what was offered |
| Correlation.StepKeeps | internal/cloud/api/handler/route.go:63-122 | Each mutex section, write, read and agent step keeps the correlation invariant |
| Correlation.BeginKeepsTableExactly | internal/cloud/api/handler/route.go:64-72 | Registering keeps the table exact if and only if no request under way has the same stream id |
| Correlation.LateReplyWitness | internal/cloud/api/handler/route.go:64-90 | With one stream id used twice, the second request returns the late answer to the first, whatever the calls |
| AgentRoutes.ReplyChannel.TrySend | internal/cloud/api/handler/route.go:106-110 | The send succeeds exactly if the channel is empty, and never waits |
| AgentRoutes.AgentRoute.Register | internal/cloud/api/handler/route.go:67-70 | A fresh empty channel under the stream id |
| AgentRoutes.AgentRoute.Unregister | internal/cloud/api/handler/route.go:71-75 | Whatever waits under the stream id is removed |
| AgentRoutes.AgentRoute.Dispatch | internal/cloud/api/handler/route.go:102-122 | A frame changes at most the channel of its own stream, only if that is empty, and otherwise goes to the terminal or else the watch of its stream |
| AgentRoutes.AgentRoute.CloseTerminals | internal/cloud/api/handler/route.go:164-179 | Every relay of the table is handed over to be closed and none stays |
| AgentRoutes.EachStreamItsOwn | internal/cloud/api/handler/route.go:102-122 | With ids of their own for requests, terminals and watches, a frame goes to the caller, the terminal or the watch registered under its stream, callers get nothing but responses, and a stream that nobody knows is dropped |
| AgentRoutes.LooksLikeTarget | internal/cloud/api/handler/route.go:102-112 | A frame reaches a caller if and only if it is a runtime response and a live request waits under its stream |
| Porcelain.ParseStatus | internal/agent/infrastructure/gitexec/repository.go:667-711 | The loop ends on every input, with all of it read or an error, and agrees with the record-by-record reader |
| Porcelain.PrintedStatusIsRead | internal/agent/infrastructure/gitexec/repository.go:667-711 | Printing any list of well-formed changes in the porcelain v1 -z layout and reading it gives the same list, sources and layers included |
| Porcelain.GitStatusIsRead | internal/agent/infrastructure/gitexec/repository.go:667-711 | In particular with the blank that Git writes between status and path |
| Porcelain.ReadStatusIsPrinted | internal/agent/infrastructure/gitexec/repository.go:667-711 | All of an accepted input is the print of the well-formed changes read from it, up to the separator byte that is never looked at |
| Porcelain.AcceptsExactly | internal/agent/infrastructure/gitexec/repository.go:667-711 | The reader returns a list if and only if the input is a print of it and every change is well formed |
| Porcelain.HiddenExactly | internal/agent/infrastructure/gitexec/repository.go:680-693 | A change has no layer if and only if it is unmerged or has a blank status, and no layer twice |
| Porcelain.LayersExactly | internal/agent/infrastructure/gitexec/repository.go:680-693 | A side with a letter is shown in its own layer, the index first, but for untracked paths and the pairs of a conflict |
| Porcelain.SourceFollowsExactly | internal/agent/infrastructure/gitexec/repository.go:694-704 | A record is followed by its source if and only if one of its letters says rename or copy |
| WorkspaceScope.RestrictToWorkspace | internal/agent/infrastructure/gitexec/repository.go:757-775 | The loop keeps the changes of the workspace, scoped, in order |
| WorkspaceScope.ScopeInverse | internal/agent/infrastructure/gitexec/repository.go:777-793 | Scoping gives a path if and only if unscoping that path gives the original: they are mutual inverses |
| WorkspaceScope.ScopedPathIsValid | internal/agent/infrastructure/gitexec/repository.go:777-786 | A valid repository path inside the workspace is a valid relative path once scoped |
| WorkspaceScope.RestrictionKeepsInside | internal/agent/infrastructure/gitexec/repository.go:757-775 | Unscoping the restricted list gives back exactly the changes whose path and source are inside, in order |
| WorkspaceScope.RestrictionOfUnscoped | internal/agent/infrastructure/gitexec/repository.go:757-793 | Changes of the workspace come back unchanged from the view of the repository |
| WorkspaceScope.StagedOutsideWorkspace | internal/agent/infrastructure/gitexec/repository.go:336-363 | The check says yes if and only if some staged change has its path or source outside |
| ScmGroups.ScmStatusFromModel | internal/agent/application/user/runtime_file_git.go:347-383 | For a parsed status three groups that show, field by field and in order, the changes of their layer: path and original path, group id, the letter of that side or U, and the letters of both sides as tooltip; the layer total as a 32-bit count; other states give no groups |
| ScmGroups.GroupsConserve | internal/agent/application/user/runtime_file_git.go:355-374 | The groups together hold exactly as many resources as the changes have layers |
| ScmGroups.GroupIsExact | internal/agent/application/user/runtime_file_git.go:355-374 | For a parsed status a group is exactly the changes with its layer, once each and in order |
| ScmGroups.CountIsTotalExactly | internal/agent/application/user/runtime_file_git.go:354-381 | The reported count is the number of resources if and only if that is below 2^31 |
| ScmGroups.DecorationMeans | internal/agent/application/user/runtime_file_git.go:385-399 | A shown resource has a letter, and is struck through if and only if its own side or the working tree is a deletion |
| ScmGroups.MissingExactly | internal/agent/application/user/runtime_file_git.go:355-374 | A reported change appears in no group if and only if it is unmerged or has no status letters |
| CommandText.CommandTextFromArguments | internal/agent/infrastructure/pty/gopty/command_text.go:10-22 | An error exactly for no command or a blank program name, else the quoted values joined by blanks |
| PosixCommands.ArgumentsRoundTrip | internal/agent/infrastructure/pty/gopty/command_text_other.go:7-15 | The POSIX quoting rules split the encoded text into the arguments, for every list of them; a shell takes those words literally if and only if no value left bare holds a parenthesis, dollar sign or backquote |
| PosixCommands.CommandRoundTrip | internal/agent/infrastructure/pty/gopty/command.go:10-22 | With a splitter that applies the quoting rules and expands nothing, the encoded text is never flagged and parses to executable and arguments; with a shell, if and only if no value left bare holds a character that expands |
| PosixCommands.QuotedIsOneWord | internal/agent/infrastructure/pty/gopty/command_text_other.go:7-15 | An encoded value is read as one word equal to it, whatever follows, and noted as expanding exactly if it was left bare and holds such a character |
| PosixCommands.BareExpansionWitness | internal/agent/infrastructure/pty/gopty/command_text_other.go:7-15 | A value with a dollar sign is left bare: the splitter that expands nothing gives it back, a shell would expand it |
| PosixCommands.HasUnquotedShellControl | internal/agent/infrastructure/pty/gopty/command_controls_other.go:5-39 | For every text the scanner objects if and only if one of its five operator characters is met outside the quotes of the POSIX rules |
| PosixCommands.AppendedOperatorIsFlagged | internal/agent/infrastructure/pty/gopty/command_controls_other.go:5-39 | Each of the five operators behind any encoded values makes the text refused |
| PosixCommands.LeftBareExactly | internal/agent/infrastructure/pty/gopty/command_text_other.go:7-15 | A value is written without quotes if and only if it is not empty and holds no blank, quote, backslash or operator |
| WindowsCommands.QuoteCommandArgument | internal/agent/infrastructure/pty/gopty/command_text_windows.go:7-32 | The loop writes the quoted form in which held-back backslashes are doubled before a mark |
| WindowsCommands.EncodedIsRead | internal/agent/infrastructure/pty/gopty/command_text_windows.go:12-31 | Reading the quoted form up to its closing mark gives the value, under the rules for backslashes and marks |
| WindowsCommands.ArgumentsRoundTrip | internal/agent/infrastructure/pty/gopty/command_text_windows.go:7-32 | Every list of arguments after the program comes back as it was |
| WindowsCommands.CommandRoundTripExactly | internal/agent/infrastructure/pty/gopty/command_windows.go:11-29 | The whole command comes back if and only if no value holds a NUL and the program name needs no quotes, or holds no mark and does not end in a backslash |
| WindowsCommands.CommandParsesExactly | internal/agent/infrastructure/pty/gopty/command.go:10-22 | Parsing the encoded command gives executable and arguments under exactly the same condition |
| WindowsCommands.EncodedIsNeverFlagged | internal/agent/infrastructure/pty/gopty/command_controls_windows.go:5-29 | The scanner never objects to an encoded command |
| WindowsCommands.HasUnquotedShellControl | internal/agent/infrastructure/pty/gopty/command_controls_windows.go:5-29 | The scanner objects if and only if a control character stands where no mark is open |
| WindowsCommands.AppendedOperatorIsFlagged | internal/agent/infrastructure/pty/gopty/command_controls_windows.go:5-29 | Each of the five operators behind any encoded values makes the text refused |
| WindowsCommands.LeftBareExactly | internal/agent/infrastructure/pty/gopty/command_text_windows.go:7-12 | A value is written without quotes if and only if it is not empty and holds no blank, vertical tab, mark or operator |
| WriteQueue.EveryRunIsOrderly | web/src/components/terminal/useXterm.ts:536-619 | After any events the pending count is in-flight plus queued bytes and at most 4 MiB, and the terminal shows a prefix of what was accepted since the latest restore, with the rest queued in order and nothing earlier among it |
| WriteQueue.EverythingIsShown | web/src/components/terminal/useXterm.ts:536-567 | As many completions as chunks outstanding bring all that was accepted to the terminal, in order, and empty the queue, unless a dispose cut a restore short |
| WriteQueue.AcceptedExactly | web/src/components/terminal/useXterm.ts:818-844 | A chunk is accepted if and only if with everything queued or in flight it makes no more than 4 MiB; otherwise only a notice is shown |
| WriteQueue.OutputExactly | web/src/components/terminal/useXterm.ts:536-620 | What each event makes the terminal show: the chunk that begins, a notice, a reset at once or when the chunk in flight has landed, and the hidden cursor exactly when a read-only terminal has caught up |
| WriteQueue.DiscardLeavesInFlight | web/src/components/terminal/useXterm.ts:569-580 | A discard leaves exactly the bytes in flight: the guard against a negative count is never needed |
| WriteQueue.IdleQueueIsEmpty | web/src/components/terminal/useXterm.ts:536-543 | With nothing in flight the queue holds chunks if and only if a restore is pending and something was accepted since it began, and then the terminal is disposed |
| WriteQueue.IdleQueueIsEmptyExactly | web/src/components/terminal/useXterm.ts:582-602 | In terms of events: with nothing in flight the queue holds chunks if and only if the first dispose fell between a restore that had to wait and the completion of the chunk in flight, and a chunk was accepted after that restore |
| WriteQueue.IdleChunksAreNeverShown | web/src/components/terminal/useXterm.ts:536-619 | Such chunks are queued for good: after any further events they are still at the head of the queue and nothing more was shown |
| WriteQueue.StuckForGood | web/src/components/terminal/useXterm.ts:536-619 | The same from every state with nothing in flight and a restore pending |
| WriteQueue.StuckWitness | web/src/components/terminal/useXterm.ts:582-586 | That case occurs, and whatever follows the chunk stays queued |
| WriteQueue.StepKeeps | web/src/components/terminal/useXterm.ts:536-619 | Every event keeps count, limit and order |
| WriteQueue.TerminalWriter.WriteData | web/src/components/terminal/useXterm.ts:818-844 | A chunk beyond the limit is refused with a notice and changes nothing else |
| WriteQueue.TerminalWriter.OnWritten | web/src/components/terminal/useXterm.ts:546-566 | The completion of a chunk releases its bytes, ends a pending restore, and hands on the next chunk |
| WriteQueue.TerminalWriter.BeginReplayRestore | web/src/components/terminal/useXterm.ts:600-620 | Queued chunks go; the reset happens now or at the completion in flight |
| WriteQueue.TerminalWriter.DiscardQueuedWrites | web/src/components/terminal/useXterm.ts:569-580 | The loop takes exactly the queued bytes off the count |
| WriteQueue.TerminalWriter.DrainWrites | web/src/components/terminal/useXterm.ts:536-547 | At most one chunk is in flight, and none during a restore |
| WriteQueue.TerminalWriter.FinishReplayRestore | web/src/components/terminal/useXterm.ts:582-598 | The reset waits for the chunk in flight and does not happen after a dispose |
| HotSessions.ComputeHotSessionIds | web/src/features/sessions/terminalKeepAlive.ts:15-46 | No duplicates, only candidates, within the limit, an active candidate first and the others in the order of their rank; what is left out means the limit is used up and every other chosen session is ranked before it, by activation and then by place in the list |
| HotSessions.RankedIsLatestFirst | web/src/features/sessions/terminalKeepAlive.ts:33-34 | The ranking holds the same entries, latest first |
| HotSessions.RankedIsStable | web/src/features/sessions/terminalKeepAlive.ts:33-34 | The ranking holds each entry once, later activations first and entries of equal time in their order |
| KeepAlive.ChosenHot | web/src/features/sessions/terminalKeepAlive.ts:154-160 | In terms of sessions and stamps: the active opened session leads, and any other is hot if and only if fewer than the limit are ahead of it |
| KeepAlive.TerminalKeepAliveController.Reconcile | web/src/features/sessions/terminalKeepAlive.ts:134-187 | Mounted is again exactly hot plus pending, disjoint, hot within the limit and inside the opened list; the opened active session is hot and any other if and only if fewer than the limit are ahead of it, so that none left out, one disposed of at once included, was activated later than another hot one; timers already pending are kept |
| KeepAlive.TerminalKeepAliveController.ForceUnmount | web/src/features/sessions/terminalKeepAlive.ts:100-111 | The session leaves all tables and its timer is cancelled; no other session is touched |
| KeepAlive.TerminalKeepAliveController.ScheduleDispose | web/src/features/sessions/terminalKeepAlive.ts:113-128 | A pending timer is kept, no delay unmounts at once, else exactly one timer is set |
| KeepAlive.TerminalKeepAliveController.TimerFires | web/src/features/sessions/terminalKeepAlive.ts:123-127 | Exactly the session of the timer is unmounted and forgotten; the hot ones stay |
| KeepAlive.TerminalKeepAliveController.RetireHot | web/src/features/sessions/terminalKeepAlive.ts:164-169 | Exactly the opened sessions that lose their place get a timer, or go at once without a delay |
| KeepAlive.TerminalKeepAliveController.DropClosed | web/src/features/sessions/terminalKeepAlive.ts:137-141 | Exactly the sessions that are no longer opened go, timers included |
| KeepAlive.TerminalKeepAliveController.Remove | web/src/features/sessions/terminalKeepAlive.ts:189-191 | Exactly this session goes |
| KeepAlive.TerminalKeepAliveController.DisposeAll | web/src/features/sessions/terminalKeepAlive.ts:193-201 | No session and no timer is left |
| KeepAlive.TerminalKeepAliveController.DisposedSessionReturns | web/src/features/sessions/terminalKeepAlive.ts:100-127 | A session whose timer has fired while it is still opened is hot after the next reconciliation if and only if it is active or fewer than the limit are ahead of its new stamp, whatever its old one was |
| KeepAlive.DisposedSessionReturnsExample | web/src/features/sessions/terminalKeepAlive.ts:100-187 | Such a session takes the place of one that was used after it |
| KeepAlive.TerminalKeepAliveController.constructor | web/src/features/sessions/terminalKeepAliveConfig.ts:21-51 | Limits are clamped to 1..16 and 0..600000 with their defaults |
| FileSearch.WalkMatchPaths | web/src/features/workbench/fileSearchMatch.ts:40-93 | For every tree, the budgeted walk returns exactly the first maxResults (at least one) matches among the first maxWalkEntries entries of the pre-order down to maxDepth, and reports a limit under an exact condition |
| FileSearch.Walker.Walk | web/src/features/workbench/fileSearchMatch.ts:57-89 | One directory extends the walk by a prefix of what lies below it, and stops there only at a limit |
| FileSearch.SearchIsPrefix | web/src/features/workbench/fileSearchMatch.ts:40-93 | The result is a prefix of all matches, no longer than wanted, and all of them when no limit is reported and the entries fit the budget |
| FileSearch.SilentlyIncompleteExactly | web/src/features/workbench/fileSearchMatch.ts:57-75 | No limit is reported although matches are missing if and only if the budget holds fewer matches than wanted, one lies beyond it, and all beyond it is inside the entry the budget ended with, or there is no budget |
| FileSearch.SilentlyIncompleteWitness | web/src/features/workbench/fileSearchMatch.ts:57-75 | This happens: the budget ends with a directory that has no later sibling |
| FileSearch.ChildPath | web/src/features/workbench/fileSearchMatch.ts:32-36 | Below a clean root a child is named by its directory and its name, with single slashes |
| FileSearch.MatchedBy | web/src/features/workbench/fileSearchMatch.ts:23-30 | A child is matched by exactly the names from the root down to it |
| FileSearch.MeetsExactly | web/src/features/workbench/fileSearchMatch.ts:57-89 | The walk meets an entry if and only if the listings lead to it from the root, directory by directory and within the depth, and it matches it by the names on that way |
| FileSearch.CollapseRun | web/src/features/workbench/fileSearchMatch.ts:32-36 | A run of slashes in a path counts as one |
| CopyNames.NextCopiedSessionName | web/src/composable/useCreateSessionDraft.ts:145-153 | The least unused number, found within one more step than there are names |
| CopyNames.ManyCopies | web/src/composable/useCreateSessionDraft.ts:149-151 | Distinct numbers give distinct names, so only as many can be taken as there are names |
| CopyNames.CopyKeepsBaseExactly | web/src/composable/useCreateSessionDraft.ts:155-158 | A copy draws from the same base if and only if the base has no line break |
| CopyNames.BaseExactly | web/src/composable/useCreateSessionDraft.ts:155-158 | The base of a name that reads as a copy is what stands before its last dash; any other name is its own base |
| DeviceRoutes.TableHoldsLastSet | internal/cloud/api/handler/server.go:1369-1391 | After any interleaving the table holds for a device exactly the last route set, unless that very route was cleared or the device dropped |
| DeviceRoutes.CleanupTakesOnlyItsOwn | internal/cloud/api/handler/server.go:1271-1282 | The cleanup of a tunnel changes the table if and only if its own route is still there, so a successor stays |
| DeviceRoutes.ReportedStatusFollowsTable | internal/cloud/api/handler/server.go:1333-1352 | A device is reported online, in the flag and in the status text, if and only if some route was set for it and not ended since |
| DeviceRoutes.RegistryHoldsLastMark | internal/cloud/api/handler/server.go:136-161 | The registry calls a device online if and only if it was registered and not marked offline since |
| DeviceRoutes.RegistryAgreesExactly | internal/cloud/api/handler/server.go:1268-1282 | The registry agrees with the route table if and only if the device was last registered rather than marked just when a route was set and not ended since |
| DeviceRoutes.WronglyOfflineExactly | internal/cloud/api/handler/server.go:1268-1282 | With tunnels that register before they set their route, a connected device is registered as offline if and only if some tunnel marked it offline after the last registration |
| DeviceRoutes.LateMarkWitness | internal/cloud/api/handler/server.go:1274-1282 | The registry alone can say offline for a device that is connected again |
| DeviceRoutes.RouteTable.Set | internal/cloud/api/handler/server.go:1369-1381 | The new route is in the table and the old one handed back to be closed |
| DeviceRoutes.RouteTable.Clear | internal/cloud/api/handler/server.go:1382-1391 | The answer is yes, and the entry goes, exactly if the route still owns it |
| DeviceRoutes.RouteTable.Drop | internal/cloud/api/handler/server.go:1354-1359 | The entry goes and is handed back to be closed |
| Connector.OneWantedRun | internal/agent/application/bootstrap/server.go:119-171 | At most one live run is not taken by a stop, the one whose cancel is stored; once all stops have finished every other live run is cancelled |
| Connector.ExitClearsOnlyItsOwn | internal/agent/application/bootstrap/server.go:150-156 | A run that ends clears the stored cancel if and only if it is its own |
| Connector.SectionsExactly | internal/agent/application/bootstrap/server.go:119-156 | In every reachable state a start begins a run of a new number if and only if no cancel is stored, and after a stop the next start does |
| Connector.StepKeeps | internal/agent/application/bootstrap/server.go:119-156 | Every section keeps that account of live, taken and cancelled runs |
| Connector.CloudConnectorLifecycle.StartRun | internal/agent/application/bootstrap/server.go:119-137 | A new run with a new number exactly if configured and none is stored |
| Connector.CloudConnectorLifecycle.TakeCancel | internal/agent/application/bootstrap/server.go:139-147 | The stored run is taken and nothing is stored |
| Connector.CloudConnectorLifecycle.Exit | internal/agent/application/bootstrap/server.go:150-156 | Only the newest run clears the stored cancel at its end |
| RepositoryLocks.MutualExclusion | internal/agent/application/task/git/service.go:51-204 | In every reachable state tokens plus holders of a repository are one, so no two operations run on it at once |
| RepositoryLocks.UnlockNeverWaits | internal/agent/application/task/git/service.go:37-39 | Giving the token back always finds room |
| RepositoryLocks.WaitsExactlyWhileHeld | internal/agent/application/task/git/service.go:28-35 | A waiting operation can go on if and only if nobody holds its repository |
| RepositoryLocks.ReleaseLetsGoOn | internal/agent/application/task/git/service.go:28-39 | Giving the token back ends the operation and lets any operation that waits for the repository go on |
| RepositoryLocks.CancelledAttemptChangesNothing | internal/agent/application/task/git/service.go:28-35 | A cancelled attempt leaves locks, tokens and holders as they were |
| RepositoryLocks.RepositoryLock.Lock | internal/agent/application/task/git/service.go:28-35 | The token is taken exactly if the attempt succeeds, and a cancelled attempt may still win when the token is there |
| RepositoryLocks.Locks.LockFor | internal/agent/application/task/git/service.go:235-248 | One lock for each key: the first stored, shared by all later callers |

## Left out

- Local writes, directory creation, deletes and renames are not steps of the coherence theorem, because their answers are stored without an epoch check; they are steps of the accounting, stale-response and saving theorems (renames of the first two only).
- In-flight descendants of a subtree event: the coherence theorem gives each changed path its own event; the exact condition for the others is a lemma.
- StaleResponses.StaleResponseNeverEnters: speaks of the path the response is for, not of the ancestors or descendants of an invalidated path.
- The value a reader gets from joining a request that began before an invalidation; only what enters the caches is stated.
- Stat fields other than type, times, size and read-only; coercions of missing or non-numeric fields by the browser.
- The order in which FileService is told of an event and the caches change inside one browser step.
- Reports.NotifiedChangeIsTold: follows one notification through publish, frame, reception and provider; that nothing is lost, reordered or altered in between, over whole runs, is the subject of FeedLaws.EveryChangeIsAccountedFor and FeedLaws.DeliveredInOrder.
- The URI that FileService gives to a local change is taken to be a slash and the path; the notice of local changes to other parts of the page.
- The watcher's table of roots, the lifetime of its goroutines and of the kernel watch, and the walk that adds directories to it; a notification is classified as the code does, with the outcome of file inspection as a parameter.
- FeedLaws.EveryChangeIsAccountedFor: speaks of names without the form of the agent's temporary files, which the watcher ignores; CoherenceLaws.CacheCoherence leaves out what changes under such names have affected, even after a later event or rescan has dropped it.
- WatchManager.RootWatcher.Publish: its contract gives the outcome without a consumer in between; the interleavings with consumers are covered by the channel machine it is proved to run.
- The watch tunnelled through the cloud: the agent ends it without a closing frame.
- Clocks, timer durations and heartbeat of connections; a timer is a step that may happen at any time.
- The workspace file store is a store that compares and replaces in one step; the moments between its comparison and its rename, and between its stat and its read, are not modelled, nor are its size and text checks.
- Revisions are taken to determine the bytes at a path, as the digest the store computes is meant to.
- SaveLaws.UnseenContentSurvives: speaks of runs without renames, and of workspaces not left with a write in flight; the exact effect of such a write is a lemma of its own.
- Contents of the runtime calls behind the tunnel: the result of the runtime for each handled request is a parameter, a text that reaches the caller unchanged; the details of a revision conflict that an error reply carries besides code and message.
- Terminal and watch relays of a route beyond the choice of the relay and their hand-over for closing: their browser connections are input and output.
- Correlation.RequestsGetTheirOwnAnswers: assumes distinct stream ids and that only requests use the prefix that requests are given.
- Loss and reordering on one connection, which the websocket excludes, and the loss of the connection, after which requests time out.
- Running Git, its environment and its output limits; the status reader gets the bytes.
- The path check also compares with the cleaned path; that it follows from the check of the segments is not proved, and the model uses the latter.
- PosixCommands.CommandRoundTrip: takes for the splitter one that applies the quoting rules of POSIX and expands nothing. The code uses the go-shellwords library with expansion of variables and backquotes switched off; that library is not part of this model, and what it does with bare parentheses and backquotes is not stated.
- PosixCommands.ArgumentsRoundTrip: of the characters that XCU section 2.2 lists as special only in certain places (`*`, `?`, `[`, `#`, `~`, `=`, `%`) none counts as expanding, and a bare newline separates words like a blank; the encoder quotes newlines.
- SaveLaws.CompletionKeepsOwnBasesExactly: speaks of write bases after a write only; the caches and the other mutations are in LateCompletions.
- WindowsCommands.CommandRoundTripExactly: models text as characters; the replacement of invalid UTF-8 and the conversion to UTF-16 are left out, and so is the doubled-mark rule inside quotes, which encoded text never needs.
- The terminal itself: it is the list of what it was told, and it calls back once for each chunk.
- KeepAlive.TerminalKeepAliveController.Reconcile: reads the clock once for each session it stamps; the order of pending sessions in the mounted list is left open; the limits are fixed at construction.
- File patterns: matching is a parameter of the search. Cancellation of a search is left out, and so are trees that change during it.
- Numbers beyond 2^53 in copy names, and 64-bit wrap-around of sequence numbers and generations.
- Closing a replaced tunnel's connection and relays, and authentication, quotas and persistence around the routes.
- Calls made while a repository lock is held, and fairness among those that wait for it.
- Runner escalation, quota counters, themes, notifications and configuration: easy members or plumbing.
- Cryptography, tokens and login flows: calls into libraries.
