# qBittorrent, modelled and proved in Dafny

This project models the parts of qBittorrent that decide something by an algorithm or by a protocol of
several steps, and proves what those parts are for. Code that changes objects step by step is a class
with the same fields and methods, code that works in place on a list is a method on an array, and a loop
is a loop. Each such method is proved against a function of its inputs or of the old state, and the
properties (invariants over whole runs, round trips, equivalences) are lemmas about these functions.

| files | what they model |
|---|---|
| `Strings`, `Numbers`, `Options` | `QString::split`, `QStringList::join`, index searches, common prefixes; decimal numbers as text; the option type |
| `Paths`, `CleanPaths`, `RelativePaths`, `FreeSpace`, `PortablePaths` | `Path`: ancestors, common path, parents, `QDir::cleanPath` as a stack normaliser, `operator/`, relative paths; the walk up to a directory that exists; profile-relative paths |
| `RootFolders`, `ContentLayout` | the root folder shared by a torrent's files, and switching the content layout in the add-torrent dialog |
| `WatchTree`, `WatchedFiles`, `RetryTable`, `Watcher`, `WatchRuns` | watched folders: the directory walk, what is done with each file, the table of unreadable torrents, the worker with its timers, the main thread with its queue of closures, whole runs over files that come and go |
| `SettingsDisk`, `Settings` | the settings store: atomic disk steps with crashes between any two, the dirty flag and the save timer, cached values |
| `CommandLine`, `TemplateExpansion` | the message that carries command-line parameters to the running instance; the external-program template |
| `FlowLayout` | the flow layout's line breaker |
| `TorrentFileGuards`, `AddTorrentManager` | deferred deletion of `.torrent` files |
| `Logger`, `PathHistory` | the log rings that are polled by id; the save-path history |

## Main results

- **Watched folders.** One pass over the watched folders visits a directory on behalf of a folder exactly
  when that folder is the deepest watched one at or above it and is the directory itself or recursive
  (`TreePartition`, `FullPassIff`). Hence no file is processed twice, and the log of a pass holds the
  effects of each file in one piece and once, in whatever order the pass goes: all its torrents handed over,
  then the file removed, if it can be taken, and nothing otherwise (`PassTakesEachFileOnce`). In every run
  of folder passes and retry passes the log consists of files handed over whole and files rejected, and a
  file that came once is handed over or rejected at most once, never both (`EveryFileEndsOnce`). The main
  thread watches what the user asked for last (`FoldersAreAsRequested`). The worker's folders are the main thread's with the posted changes still to come, in every run (`RunStaysInSync`).
  An entry of the retry table survives exactly as long as every pass finds it unreadable and its retries
  last (`SurvivesIff`), so the table is empty after six passes and not always after five.
- **Settings.** With a crash after any disk step of any save or recovery, the next start loads the last
  complete snapshot or the one being written, as long as no rename fails (`RunIsCrashSafe`); what was saved
  completely is loaded by every later start (`SavedIsLoaded`).
- **Content layout.** Layout switching is independent of its history exactly for the metadata that is
  `Reversible` (`HistoryIndependentIff`), and what the user then sees is written out for files in a shared
  folder and for a first file in none (`SharedRootLayouts`, `FlatFirstLayouts`).
- **Command line.** Parameters come back from the wire exactly when they are `WireSafe` (`RoundTripIff`).
- **Template.** The right-to-left in-place loop equals a single left-to-right pass over the template
  (`ReplaceVariables`, `LoopResultIsSinglePass`); substituted text is never looked at.
- **Flow layout.** Where every item stands is stated on the fields and the rectangle alone
  (`FlowLayout.FlowLayout.DoLayout`, through `Arranged`); items never overlap; no way to cut the items into lines that fit or hold one item uses
  fewer lines; the layout's own lines are such lines in every frame exactly when all items but the last
  have some height (`LinesAreProperIff`); and the height for a width is the height the real layout takes.
- **File guards.** In every run a file is deleted only if the mode allows it and, with `IfAdded`, directly
  after the session reported a torrent added for the guard's source; with `Always` and no cancellation it is
  never spared (`RunSparesNone`); each guard ends once. That report is
  for the torrent that was in the file as long as every pending info-hash of a guarded source is the
  guard's own, and for each event a check beforehand says exactly whether that stays so
  (`NextKeepsOwnIff`, `RunDeletesOwn`).

## Behaviour the proofs brought out

Where the code does something a reader of its comments or callers might not expect, the model follows the
code, and a lemma says when.

- `hasAncestor` never reports "/" as an ancestor of "/a": the character behind the prefix is not a
  separator (`AncestorIffOnChain`).
- `findRootFolder`, taken by itself, passes over absolute paths in front, because their empty first item
  looks like "none yet"; then it returns the folder all others share (`RootFolderPassesAbsolute`). It is
  exact unless an absolute path stands in front and the paths behind it share a folder
  (`ScanIsExactIff`). Torrent metadata holds relative paths, for which it is always exact.
- Switching to `Subfolder` and back changes the paths when the files share no root folder and the first
  path, without its extension, still has more than one item (`StripUndoesAddIff`, `HistoryIndependentIff`).
- A torrent that becomes readable on a retry is as a rule added with other parameters than on its first
  try: the first try places it by its directory, the retry by its own path, file name included. For a file
  directly in the watched folder the parameters are never the same (`RetryChangesParams`). Below it they are
  the same exactly when the folder's parameters are default ones (a save path "." counting as none where
  torrents are not managed automatically) and the file lies in a directory of its own name directly below
  the folder (`Watcher.RetryKeepsParamsIff`).
- Files below a recursive folder are tracked under their own directory, which is not a watched folder, so
  their retries use default options (`SubfolderRetryForgetsOptions`); for the same reason removing the
  watched folder does not drop them (`Watcher.Worker.RemoveWatchedFolder` drops only its own key).
- One failed rename leaves a file behind whose keys go into the next save, which can bring a removed
  setting back (`RenameFaultRevivesKey`, exactly when: `StaleKeysIff`). If the writing of the next save
  fails too, all settings are lost (`RenameThenSyncFaultLosesAll`; exactly when a failed write loses
  something: `FailedSyncIff`).
- With no setting left, and no leftover file, a save never reports success and the timer goes on for ever (`EmptySettingsNeverSaved`).
- Storing an invalid value inserts an invalid entry without marking the settings as changed, so disk and
  memory agree only up to invalid entries (`Settings.SettingsStorage.StoreValue`).
- In the flow layout an item stays on a line only if it ends before the width between the margins is used
  up, since `QRect::right` is the last column (`StaysIffNarrower`). An item stays on a line it does not fit
  on exactly when all items before it there have no height (`OverflowIffBehindFlat`); items are never
  wrapped, however narrow the frame, exactly when all but the last have none (`FlatItemsNeverWrapIff`).
- The report that lets a guard delete its file is one for the source, not for the torrent in the file. It
  deletes the file of another torrent exactly when a guard with a path waits for the source and its file
  held another torrent (`ReportDeletesOtherIff`); this can come about only when a file is added while
  another info-hash is pending for its source, or a torrent other than the guard's is accepted for the
  source (`NextKeepsOwnIff`). `ReportForEarlierTorrentDeletes` is a run in which it does.

## Model

| member | source | states |
|---|---|---|
| Paths.AncestorIffItemPrefix | src/base/path.cpp:203-210 | `hasAncestor` holds exactly when the other path is not empty and its items are a proper prefix of the path's items, although the code compares characters only |
| Paths.AncestorIrreflexive | src/base/path.cpp:203-210 | no path is its own ancestor |
| Paths.AncestorTransitive | src/base/path.cpp:203-210 | being an ancestor is transitive and asymmetric |
| Paths.AncestorsFormChain | src/base/path.cpp:203-210 | any two ancestors of a path are comparable |
| Paths.CommonPath | src/base/path.cpp:273-297 | the counting loop, which cuts `left` at an accumulated size, returns the join of the longest common item prefix, and the empty path if either is empty |
| Paths.CommonWithAncestor | src/base/path.cpp:203-297 | the common path of a path and one of its ancestors is the ancestor, from either side |
| Paths.CommonIsGreatestLowerBound | src/base/path.cpp:203-297 | a path is at or above both paths exactly when their common path exists and it is at or above that |
| Paths.ParentKeepsRoot | src/base/path.cpp:136-173 | the parent of a path other than its root item is shorter, not empty, and has the same root item |
| Paths.RootIs | src/base/path.cpp:136-153 | the root item of an absolute path is "/", that of any other path its first item |
| Paths.ParentDropsItem | src/base/path.cpp:155-173 | the parent is the path without its last item, written "/" where nothing else is left of an absolute path |
| Paths.ChainReachesRoot | src/base/path.cpp:136-173 | taking parents repeatedly reaches the root item, not before the end, and meets no empty path unless it started there |
| Paths.ChainEndsAt | src/base/path.cpp:136-173 | the walk up from an absolute path ends at "/", from any other path at its first item |
| Paths.AncestorIffOnChain | src/base/path.cpp:136-210 | `hasAncestor` holds exactly for the paths met while taking parents, except that "/" counts only for paths starting with two separators |
| FreeSpace.QueryFreeDiskSpace | src/gui/addnewtorrentdialog.cpp:96-110 | terminates and returns the answer of the nearest path on the way up that has a valid one, or else the last path's answer; for an absolute path "/" is asked last, so the answer is valid if that of "/" is |
| CleanPaths.NormaliseIsNormal | src/base/path.cpp:55-62 | the normaliser of `cleanPath` leaves names only, behind leading ".." items in a relative path |
| CleanPaths.CleanItemsOfRender | src/base/path.cpp:55-62 | writing items in normal form as a path and cleaning it gives the same items and the same path back |
| CleanPaths.CleanPathIdempotent | src/base/path.cpp:55-62 | cleaning a clean path changes nothing |
| CleanPaths.CleaningDropsHere | src/base/path.cpp:55-62 | cleaning leaves out empty and "." items wherever they stand |
| CleanPaths.UpTakesName | src/base/path.cpp:55-62 | a name and ".." behind it take each other away, in relative and absolute paths |
| CleanPaths.UpStaysAtRoot | src/base/path.cpp:55-62 | ".." in front of an absolute path leads nowhere else |
| CleanPaths.CleanedUps | src/base/path.cpp:55-62 | leaving a directory again cleans to "." or "/"; ".." in front stays in a relative path and goes in an absolute one |
| CleanPaths.MakePathCleans | src/base/path.cpp:55-79 | the constructor cleans every string, although it skips those without separators, and its result is clean |
| CleanPaths.DivItems | src/base/path.cpp:349-358 | `operator/` carries the clean items of the left path on with the items of the right one and keeps whether it is absolute |
| CleanPaths.DivWithEmpty | src/base/path.cpp:349-355 | the empty path adds nothing on either side |
| CleanPaths.DivName | src/base/path.cpp:349-358 | appending a name to a clean absolute path gives the clean path of the entry with that name |
| CleanPaths.PathOfInjective | src/base/path.cpp:55-79 | different lists of names are different clean absolute paths |
| CleanPaths.CleanAbsoluteIsPathOf | src/base/path.cpp:55-79 | every clean absolute path is the one its names lead to from "/" |
| CleanPaths.CleanPathShrinks | src/base/path.cpp:55-62 | cleaning never makes a path longer |
| CleanPaths.CleanPathKeepsFree | src/base/path.cpp:55-62 | cleaning brings in no character besides separators and dots |
| RelativePaths.RelativePathIs | src/base/path.cpp:212-219 | the relative path has one ".." for each item of the base beyond the common prefix, then the remaining names of the file, and is clean |
| RelativePaths.RelativeLeadsBack | src/base/path.cpp:212-219 | following the relative path from its base leads to the clean path of the file |
| RelativePaths.RelativePathFromLeadsBack | src/base/path.cpp:212-219 | from a base of either kind the relative path leads to the file: two relative paths are taken from the home directory, a lone relative base from the current one |
| RelativePaths.RelativePairIgnoresHome | src/base/path.cpp:214-216 | between two relative paths made of names the result depends on their own items only, not on the home directory |
| RelativePaths.RelativePathBelow | src/base/path.cpp:212-219 | the relative path of something below a directory lists the names in between |
| PortablePaths.PortableRoundTrip | src/base/profile_p.cpp:199-223 | storing a path as portable and reading it back gives, for all paths, the clean form of an absolute one, the place below the base of a relative one, and the empty path for the empty one |
| PortablePaths.PortableIsRelative | src/base/profile_p.cpp:199-215 | a portable path is relative, clean and not empty |
| PortablePaths.PortableReads | src/base/profile_p.cpp:217-223 | an absolute or empty path is read as it is, names as the place below the base |
| PortablePaths.CleanPathComesBack | src/base/profile_p.cpp:199-223 | clean absolute paths come back unchanged, and different ones are stored differently |
| PortablePaths.PortableMoves | src/base/profile_p.cpp:199-223 | read under another base, a path from inside the old one is at the same place inside the new one |
| RootFolders.FindRootFolder | src/base/path.cpp:299-316 | the loop with its early returns computes the scan `RootFolder` |
| RootFolders.StripRootFolder | src/base/path.cpp:318-326 | in place, every path loses the found root folder and a separator; nothing changes without one |
| RootFolders.AddRootFolder | src/base/path.cpp:328-334 | in place, every path becomes root folder / path |
| RootFolders.RootFolderIffShared | src/base/path.cpp:299-316 | for relative paths a folder is found exactly when all paths lie in it |
| RootFolders.RootFolderPassesAbsolute | src/base/path.cpp:299-316 | for all lists: the scan passes over the absolute paths in front and returns a folder exactly when all paths from there on lie in it |
| RootFolders.ScanIsExactIff | src/base/path.cpp:299-316 | the scan returns exactly the folder all paths share, if and only if no absolute path stands in front or the paths behind it share none |
| RootFolders.AbsolutePathFoolsScan | src/base/path.cpp:299-316 | a smallest list for which the scan by itself is not exact |
| RootFolders.StripTakesFirstItem | src/base/path.cpp:318-326 | stripping a shared root takes exactly the first item and its separator off each path and keeps the number of paths |
| RootFolders.StripLeavesOthers | src/base/path.cpp:318-322 | relative paths that share no folder are left as they are |
| ContentLayout.TorrentContentAdaptor.constructor | src/gui/addnewtorrentdialog.cpp:145-157 | the adaptor starts in the layout the metadata has |
| ContentLayout.TorrentContentAdaptor.ApplyContentLayout | src/gui/addnewtorrentdialog.cpp:203-228 | one call makes the step `Switch` of layout and paths, in place; what the steps come to is stated by `SharedRootLayouts` and `FlatFirstLayouts` |
| ContentLayout.KnownSuffixIsRemoved | src/base/path.cpp:184-229 | a suffix known to the MIME database is taken off with its dot |
| ContentLayout.LastDotIsRemoved | src/base/path.cpp:190-229 | otherwise the text from the last dot of the last item on is taken off, a dot at the very end not counting |
| ContentLayout.NoDotIsLeft | src/base/path.cpp:190-229 | and a path whose last item has no dot before its last character is left as it is |
| ContentLayout.SharedRootLayouts | src/gui/addnewtorrentdialog.cpp:145-228 | after any switches files that share a folder are without it in `NoSubfolder` and as in the metadata otherwise |
| ContentLayout.FlatFirstLayouts | src/gui/addnewtorrentdialog.cpp:145-228 | after any switches files of which the first lies in no folder are, in `Subfolder`, below a folder of that file's name without its extension, and as in the metadata otherwise |
| ContentLayout.AddUndoesStrip | src/base/path.cpp:318-334 | adding the shared root folder again undoes stripping it |
| ContentLayout.StripUndoesAddIff | src/gui/addnewtorrentdialog.cpp:213-224 | without a shared root, stripping the added folder restores the paths exactly when the folder's name comes down to at most one item |
| ContentLayout.LayoutHistoryIndependent | src/gui/addnewtorrentdialog.cpp:145-228 | for reversible metadata the paths after any switches depend on the last layout only, and `Original` restores the original paths |
| ContentLayout.HistoryIndependentIff | src/gui/addnewtorrentdialog.cpp:145-228 | switching is independent of its history if and only if the metadata is reversible: a shared root folder, or a first path whose extension-stripped form comes down to at most one item |
| ContentLayout.FlatFirstFileReversible | src/gui/addnewtorrentdialog.cpp:221-223 | a first file that lies in no directory makes the metadata reversible |
| ContentLayout.RunKeepsLength | src/gui/addnewtorrentdialog.cpp:203-228 | no switching changes the number of files |
| WatchTree.WalkIff | src/base/torrentfileswatcher.cpp:445-455 | the recursive walk visits exactly the existing directories at or below its start with no watched folder on the way, and only the start itself when not recursive |
| WatchTree.TreePartition | src/base/torrentfileswatcher.cpp:365-456 | processing a watched folder visits a directory exactly when that folder is the deepest watched one at or above it, and is the directory itself or recursive |
| WatchTree.HandlerIsUnique | src/base/torrentfileswatcher.cpp:445-455 | at most one watched folder handles a directory |
| WatchTree.FullPassIff | src/base/torrentfileswatcher.cpp:329-456 | a pass over watched folders visits exactly the existing directories that one of them handles |
| WatchTree.FullPassDistinct | src/base/torrentfileswatcher.cpp:329-456 | and visits none of them twice |
| WatchTree.NoFileTwice | src/base/torrentfileswatcher.cpp:374-456 | no file path is processed twice in a pass |
| WatchTree.FileProcessedIff | src/base/torrentfileswatcher.cpp:374-456 | a file of the tree is processed in a pass exactly when a folder of the pass handles its directory |
| WatchedFiles.RetryChangesParams | src/base/torrentfileswatcher.cpp:381-485 | the retry of a file directly in a watched folder appends the file name to the category or save path, and never has the parameters of the first try |
| WatchedFiles.ScanParamsBelow | src/base/torrentfileswatcher.cpp:381-395 | in a subdirectory the names between the watched folder and the directory extend the category of managed torrents and the save path of others, and change nothing else |
| WatchedFiles.RetryBelowKeepsParamsIff | src/base/torrentfileswatcher.cpp:381-485 | a retry with default options has the parameters of the first try of a file in a subdirectory if and only if the folder's own are default ones and the file has the name of its directory, directly below the folder |
| WatchedFiles.ScanTracksExactly | src/base/torrentfileswatcher.cpp:428-441 | a pass adds to the table exactly the unreadable files it meets, each under its own directory at count zero, and leaves every other count alone |
| WatchedFiles.ScanKeepsTable | src/base/torrentfileswatcher.cpp:437-440 | a pass keeps every count within the limit and no directory without a file |
| WatchedFiles.FileLogIs | src/base/torrentfileswatcher.cpp:377-442 | processing a file adds to the log that file's effects and nothing else |
| WatchedFiles.JobHandsOver | src/base/torrentfileswatcher.cpp:397-442 | the effects of a file that can be taken are all its torrents handed over, in order and with its parameters, and then its removal; any other file has none |
| WatchedFiles.TorrentFileIs | src/base/torrentfileswatcher.cpp:377-434 | a .torrent file, in letters of any case, is handed over and removed if it loads and left alone otherwise |
| WatchedFiles.MagnetFileIs | src/base/torrentfileswatcher.cpp:397-427 | a .magnet file that opens and is not too big has the torrents of its good lines handed over in order and is removed |
| WatchedFiles.OtherFileIs | src/base/torrentfileswatcher.cpp:377-377 | a file of any other name is left alone |
| WatchedFiles.UnreadableIsTracked | src/base/torrentfileswatcher.cpp:397-441 | a .torrent file that does not load is tracked under its directory, a .magnet file never comes to be |
| WatchedFiles.HasExtensionIff | src/base/path.cpp:196-201 | a suffix test looks at the end of a path only and not at the case of its letters |
| WatchedFiles.ScanLogIs | src/base/torrentfileswatcher.cpp:374-456 | a list of visits adds the effects of its files, each with the parameters of its directory, one after the other |
| WatchedFiles.JobPathsAre | src/base/torrentfileswatcher.cpp:374-456 | the files in that log are those of the visits, in order |
| WatchedFiles.JobEnds | src/base/torrentfileswatcher.cpp:397-442 | among the effects of a file its removal comes once if it can be taken, and no other file is removed or renamed |
| WatchedFiles.EffectsAround | src/base/torrentfileswatcher.cpp:374-456 | when no path comes up twice, the effects around those of one file concern other files |
| RetryTable.PassTracks | src/base/torrentfileswatcher.cpp:461-508 | a retry pass keeps an entry exactly if it is unreadable and below the limit, with its count raised by one |
| RetryTable.SurvivesIff | src/base/torrentfileswatcher.cpp:458-515 | after any passes an entry is left exactly if all of them found it unreadable and count plus passes is within the limit, and its count is then the sum |
| RetryTable.RetriesRunOut | src/base/torrentfileswatcher.cpp:458-515 | after one pass more than the limit the table is empty, whatever the passes found |
| RetryTable.RetriesNotRunOutBefore | src/base/torrentfileswatcher.cpp:458-515 | after as many passes as the limit an unreadable file is still there |
| RetryTable.OneOutcome | src/base/torrentfileswatcher.cpp:464-502 | a tracked file leaves the table in exactly one pass if it is gone at the end, otherwise in none |
| RetryTable.EffectsOnlyOnLeaving | src/base/torrentfileswatcher.cpp:464-502 | only the pass in which a file leaves does something with it: taken or rejected, never both, unless it had vanished |
| RetryTable.PassKeepsTable | src/base/torrentfileswatcher.cpp:458-508 | a retry pass keeps every count within the limit and no directory without a file |
| Watcher.PassLogIs | src/base/torrentfileswatcher.cpp:329-456 | the log of a pass is that of its files, one after the other |
| Watcher.PassTakesEachFileOnce | src/base/torrentfileswatcher.cpp:329-456 | in any order of the folders the log of a pass holds the effects of each file it is responsible for once and in one piece, with the parameters that the handling folder gives its directory: all its torrents handed over and then the file removed if it can be taken, nothing otherwise; the rest concerns other files |
| Watcher.AfterAllRows | src/base/algorithm.h:41-47 | erasing while iterating makes the same table in whichever order the rows come |
| Watcher.DetectionPartitions | src/base/torrentfileswatcher.cpp:517-562 | polled and OS-watched folders are disjoint, and together all watched folders when every path can be watched |
| Watcher.DetectsSet | src/base/torrentfileswatcher.cpp:517-562 | changing how one folder is watched keeps the rule: polled if and only if recursive or on a network file system |
| Watcher.DetectsRemove | src/base/torrentfileswatcher.cpp:343-350 | removing a folder keeps that rule |
| Watcher.PollIsValidOrder | src/base/torrentfileswatcher.cpp:329-333 | a poll of an existing tree is one of the passes that the partition results are about |
| Watcher.Worker.constructor | src/base/torrentfileswatcher.cpp:315-327 | the worker starts with nothing watched, nothing pending and both timers stopped |
| Watcher.Worker.SetWatchedFolder | src/base/torrentfileswatcher.cpp:335-341 | the folder has the new options, detection and timers are in order, and processing is scheduled exactly when the folder came to be OS-watched |
| Watcher.Worker.AddWatchedFolder | src/base/torrentfileswatcher.cpp:517-535 | a new folder is polled or OS-watched as the rule says, the poll timer runs if and only if some folder is polled |
| Watcher.Worker.UpdateWatchedFolder | src/base/torrentfileswatcher.cpp:537-562 | changing the options moves the folder between polling and OS watching as the rule says, with the poll timer |
| Watcher.Worker.RemoveWatchedFolder | src/base/torrentfileswatcher.cpp:343-355 | the folder is no longer watched, only its own key leaves the retry table, and each timer runs if and only if it has something to do |
| Watcher.Worker.ProcessFile | src/base/torrentfileswatcher.cpp:377-443 | the effects and table entries of one file: magnet lines, a loaded torrent, or a new entry at zero |
| Watcher.Worker.ProcessFolder | src/base/torrentfileswatcher.cpp:374-456 | the recursion terminates and does exactly what handling the visits of the walk in order does |
| Watcher.Worker.ProcessWatchedFolder | src/base/torrentfileswatcher.cpp:365-372 | for any path, watched or not, the walk is handled with the options looked up for it, and the retry timer runs if and only if something is pending |
| Watcher.Worker.OnTimeout | src/base/torrentfileswatcher.cpp:329-333 | a poll handles every polled folder once, in some order |
| Watcher.Worker.ProcessFailedTorrents | src/base/torrentfileswatcher.cpp:458-515 | the table becomes that of one retry pass, every entry has its effects once, and the retry timer runs if and only if something is pending |
| Watcher.Worker.ProcessRows | src/base/torrentfileswatcher.cpp:461-508 | erasing rows while iterating passes every row once, in some order |
| Watcher.Worker.ProcessRow | src/base/torrentfileswatcher.cpp:464-502 | erasing entries while iterating passes every entry of the row once, in some order |
| Watcher.Worker.RetryFile | src/base/torrentfileswatcher.cpp:464-502 | one entry: vanished, taken with its retry parameters, rejected at the limit by renaming, or kept |
| Watcher.SubfolderRetryForgetsOptions | src/base/torrentfileswatcher.cpp:439-463 | the retry of a file found below a recursive folder looks up default options |
| Watcher.RetryKeepsParamsIff | src/base/torrentfileswatcher.cpp:381-485 | for every file a walk comes across, with the options looked up for its retry: exactly when the retry has the parameters of the first try |
| WatchRuns.FolderPassTakesOnce | src/base/torrentfileswatcher.cpp:365-456 | processing a folder takes a file away at most once, and only if it is there |
| WatchRuns.TableEnds | src/base/torrentfileswatcher.cpp:458-515 | a retry pass takes a file away, once, exactly if it is tracked under its own directory, is there, and loads or has run out of retries |
| WatchRuns.NextKeepsBalance | src/base/torrentfileswatcher.cpp:343-515 | every event keeps: files are tracked under their own directory only, and a file leaves its place only by being taken, being rejected or vanishing |
| WatchRuns.NextAddsOutcomes | src/base/torrentfileswatcher.cpp:365-515 | what an event adds to the log are files handed over, each with the torrents and parameters that the event shows for it, and files rejected that it shows unreadable |
| WatchRuns.EveryFileEndsOnce | src/base/torrentfileswatcher.cpp:343-515 | in every run of folder passes, retry passes and removals of folders the log consists of such outcomes; arrivals of a file are balanced by its outcomes, its vanishing and its being there, so one that came once is handed over or rejected at most once, never both |
| WatchRuns.RejectedIsNotListed | src/base/torrentfileswatcher.cpp:377-496 | a rejected file stays in its directory under a name that no pass lists |
| Watcher.NextKeepsInSync | src/base/torrentfileswatcher.cpp:273-307 | every user change and every closure run keeps: worker's folders with the posted closures applied are the main thread's folders |
| Watcher.RunStaysInSync | src/base/torrentfileswatcher.cpp:273-355 | that holds in every run, so the two agree whenever nothing is posted |
| Watcher.FoldersAreAsRequested | src/base/torrentfileswatcher.cpp:273-307 | in every run the main thread watches a folder exactly as the user asked last, refused requests not counting, and so does the worker with nothing posted |
| Watcher.WorkerCatchesUp | src/base/torrentfileswatcher.cpp:283-341 | once the worker has run everything posted it has the main thread's folders |
| Watcher.TorrentFilesWatcher.constructor | src/base/torrentfileswatcher.cpp:140-151 | main thread and worker start in agreement with nothing posted |
| Watcher.TorrentFilesWatcher.SetWatchedFolder | src/base/torrentfileswatcher.cpp:273-289 | empty and relative paths are refused and change nothing; otherwise the folder is set and the change posted, and the refinement is kept |
| Watcher.TorrentFilesWatcher.RemoveWatchedFolder | src/base/torrentfileswatcher.cpp:291-307 | a watched folder is removed and the removal posted, any other path changes nothing, and the refinement is kept |
| Watcher.TorrentFilesWatcher.RunPosted | src/base/torrentfileswatcher.cpp:283-300 | the closure posted first runs on the worker, which keeps the refinement and the worker's invariant |
| SettingsDisk.CrashInWrite | src/base/settingsstorage.cpp:164-210 | wherever a save is cut short, the next start loads the settings before it or those being written; a complete save loads those written |
| SettingsDisk.CrashInRecovery | src/base/settingsstorage.cpp:115-162 | wherever a recovery is cut short and whatever fails in it, the next start loads the same |
| SettingsDisk.StaleKeysIff | src/base/settingsstorage.cpp:166-209 | a save over a leftover file writes exactly the data if and only if the leftover has no valid key of its own |
| SettingsDisk.FailedSyncIff | src/base/settingsstorage.cpp:197-201 | a save whose writing fails keeps the loaded settings if and only if a leftover holds nothing different from the final file |
| SettingsDisk.RemoveFaultKeepsBoth | src/base/settingsstorage.cpp:203-209 | when the old file cannot be removed the save fails, both files stay, and the next start finds the new settings |
| SettingsDisk.RenameThenSyncFaultLosesAll | src/base/settingsstorage.cpp:197-209 | a failed rename followed by a failed write leaves no settings at all |
| SettingsDisk.RenameFaultRevivesKey | src/base/settingsstorage.cpp:166-209 | after one failed rename a setting removed then is back with the next save, which succeeds |
| SettingsDisk.EmptySettingsNeverSaved | src/base/settingsstorage.cpp:173-209 | with no setting and no leftover file a save reports failure, whether or not anything goes wrong, although the next start then loads no setting |
| SettingsDisk.NextKeepsCrashSafe | src/base/settingsstorage.cpp:115-210 | starting, changing, saving and crashing each keep: the next start finds the last complete snapshot or the one being written |
| SettingsDisk.SavedIsLoaded | src/base/settingsstorage.cpp:115-210 | settings saved completely are what the program starts with, after any crashes and interrupted starts |
| SettingsDisk.RunIsCrashSafe | src/base/settingsstorage.cpp:115-210 | that holds in every run with crashes after any disk step, including repeated crashes in recovery, while no rename fails |
| Settings.SettingsStorage.constructor | src/base/settingsstorage.cpp:115-162 | the store starts clean with what the disk gives, and takes the disk through the recovery steps |
| Settings.SettingsStorage.StoreValue | src/base/settingsstorage.cpp:103-113 | the key has the value; the store is marked changed, with its timer running, if and only if the value differs from before; unchanged settings stay equal to the disk's up to invalid entries |
| Settings.SettingsStorage.RemoveValue | src/base/settingsstorage.cpp:212-220 | the key is gone; the store is marked changed if and only if the key was there |
| Settings.SettingsStorage.WriteNativeSettings | src/base/settingsstorage.cpp:164-210 | the disk passes through the steps of `WriteStates`, and success is reported exactly if the rename goes through |
| Settings.SettingsStorage.Save | src/base/settingsstorage.cpp:80-95 | true exactly if something had changed and was saved; otherwise changes stay marked with the timer running |
| Settings.SettingsStorage.OnTimer | src/base/settingsstorage.cpp:53-95 | when the timer goes off changed settings are on the disk, or still marked and the timer running again |
| Settings.CachedSettingValue.constructor | src/base/settingvalue.h:70-74 | the cache starts with what loading the setting gives |
| Settings.CachedSettingValue.Assign | src/base/settingvalue.h:95-103 | the cache has the value, an equal one is not written through, and the cache stays equal to a fresh load |
| Settings.CacheEqualsFreshLoad | src/base/settingvalue.h:70-103 | in every run in which nobody else writes the key the cache equals a fresh load with the default |
| CommandLine.SerializeParams | src/app/application.cpp:149-186 | the message joins the pieces of the given options, in order, and the sources |
| CommandLine.ParseParams | src/app/application.cpp:188-246 | the loop applies what each piece of the message says, one after the other |
| CommandLine.MessageIs | src/app/application.cpp:149-186 | the message letter by letter: option names, flags as 1 and 0, and the sources, in order between separators |
| CommandLine.TrimmedIs | src/app/application.cpp:195-195 | trimming takes the whitespace off both ends, all of it and nothing else |
| CommandLine.NumberAsFlag | src/app/application.cpp:206-240 | a number within the range of int, given as a flag, counts as set unless it is zero |
| CommandLine.OtherTextAsFlag | src/app/application.cpp:206-240 | text with any other character is no number, so the flag is not set |
| CommandLine.ParsePiece | src/app/application.cpp:193-196 | empty pieces are skipped, others trimmed and divided at the first '=' |
| CommandLine.HandleParam | src/app/application.cpp:200-242 | the chain of comparisons sets the option of that name, and takes any other piece for a source |
| CommandLine.FirstEquals | src/app/application.cpp:135-147 | a name without '=' and any value, '=' included, come apart again where they were bound |
| CommandLine.BoundParam | src/app/application.cpp:135-196 | a bound parameter is read as its name and its value without trailing whitespace |
| CommandLine.AddsSourcesIff | src/app/application.cpp:242-242 | the parsed sources are exactly the given ones, in order, if and only if every piece is read as a source |
| CommandLine.ParsedHasNoSeparator | src/app/application.cpp:188-246 | whatever the message, nothing parsed holds a separator |
| CommandLine.OptionsUnchangedIff | src/app/application.cpp:149-240 | the options come back unchanged if and only if category and save path have no trailing whitespace and the path is clean |
| CommandLine.RoundTripIff | src/app/application.cpp:135-246 | parsing the serialised parameters gives the same parameters if and only if they hold no separator, have no trailing whitespace, the path is clean, and no source is empty, untrimmed or named like an option |
| TemplateExpansion.ReplaceVariables | src/app/application.cpp:544-600 | the in-place right-to-left loop stays in range, terminates, and replaces exactly the variables of the template, taking every value over as it is |
| TemplateExpansion.VariablesMean | src/app/application.cpp:551-593 | what each of the twelve variables stands for |
| Numbers.NumberReads | src/app/application.cpp:554-589 | the text of a number reads as that number, with no zeros in front and a sign if it is negative |
| TemplateExpansion.PiecesAreTemplate | src/app/application.cpp:544-600 | the pieces are the template and nothing else |
| TemplateExpansion.EveryVariableIsFound | src/app/application.cpp:544-600 | every '%' before a specifier in the template is a variable piece at its own place |
| TemplateExpansion.TakenIffParity | src/app/application.cpp:546-597 | in a row of '%' signs the loop takes every other one, counted from the end of the row |
| TemplateExpansion.LoopResultIsSinglePass | src/app/application.cpp:546-597 | skipping the pair after each '%' makes no difference to a single pass from the left |
| FlowLayout.FlowLayout.ApplyItemsGeometry | src/gui/flowlayout.cpp:208-223 | every item of the line gets its place, moved down by its alignment, and no other item changes |
| FlowLayout.FlowLayout.DoLayout | src/gui/flowlayout.cpp:136-191 | stated on fields and rectangle: each item has its own size and alignment; the first stands at the left and top margins, the next beside the one before by width and horizontal spacing, or at the left margin of a new line, the vertical spacing below the line before, exactly if it would reach beyond the last column behind some height; the height ends below the last line, and testing gives the same height and changes nothing |
| FlowLayout.FlowLayout.LayoutIsArranged | src/gui/flowlayout.cpp:136-223 | the columns, rows and line heights of the layout are such an arrangement |
| FlowLayout.FlowLayout.HeightForWidth | src/gui/flowlayout.cpp:108-112 | the height is the one such an arrangement takes in every rectangle of that width |
| FlowLayout.InsideLine | src/gui/flowlayout.cpp:208-222 | alignment keeps an item inside its line: at the bottom, in the middle up to half a row, or at the top |
| FlowLayout.RowsAdvance | src/gui/flowlayout.cpp:166-178 | a later line begins below all of an earlier one, with the spacing between |
| FlowLayout.ItemsAreDisjoint | src/gui/flowlayout.cpp:136-223 | with widths and spacing not negative no two items overlap |
| FlowLayout.FlowLayout.StaysIffNarrower | src/gui/flowlayout.cpp:141-166 | behind an item with height the next one stays on the line if and only if it ends before the width between the margins is used up |
| FlowLayout.LinesAreProper | src/gui/flowlayout.cpp:165-178 | with widths and spacing not negative, and height for all items but the last, every line fits or holds a single item |
| FlowLayout.LinesAreProperIff | src/gui/flowlayout.cpp:165-178 | for items of given widths every line of every layout fits or holds a single item if and only if all items but the last have height |
| FlowLayout.OverflowIffBehindFlat | src/gui/flowlayout.cpp:166-166 | an item that does not fit stays on the line of the item before it if and only if that line has only items without height |
| FlowLayout.FlatItemsNeverWrapIff | src/gui/flowlayout.cpp:166-166 | items are on one line in every frame if and only if all but the last have no height |
| FlowLayout.GreedyIsMinimal | src/gui/flowlayout.cpp:136-191 | with widths and spacing not negative the layout has no more lines than any way to cut the items, in order, into lines that fit or hold one item |
| FlowLayout.GreedyIsProper | src/gui/flowlayout.cpp:136-191 | the layout is itself one of these ways, so its number of lines is the least |
| FlowLayout.LinesAreWhereItemsAre | src/gui/flowlayout.cpp:136-191 | the lines so counted are those the items are placed in |
| FlowLayout.HeightDependsOnWidth | src/gui/flowlayout.cpp:136-191 | moving the rectangle moves the layout and leaves its height |
| TorrentFileGuards.SignalStates | src/base/addtorrentmanager.cpp:132-152 | a session report takes the info-hash and the guard of its source and nothing else, and the guard ends marked or cancelled |
| TorrentFileGuards.NextKeepsSafe | src/base/addtorrentmanager.cpp:53-216 | every operation of either manager keeps all deletions justified and all kept guards untouched |
| TorrentFileGuards.RunIsSafe | src/base/addtorrentmanager.cpp:53-216 | in every run mode Never deletes nothing, a cancelled guard deletes nothing, and mode IfAdded deletes only directly after the session reported its source added |
| TorrentFileGuards.NextKeepsNoneSpared | src/base/torrentfileguard.cpp:53-74 | no operation ends a guard with a path, uncancelled and with mode Always or its torrent added, without deleting |
| TorrentFileGuards.RunSparesNone | src/base/torrentfileguard.cpp:53-74 | in every run such a guard deletes its file when it ends |
| TorrentFileGuards.UnusedFileFate | src/gui/guiaddtorrentmanager.cpp:130-145 | a file that does not load, or is a duplicate for the manager with dialogs, is deleted at once with Always and kept otherwise |
| TorrentFileGuards.UsedFileFate | src/base/addtorrentmanager.cpp:81-96 | a file that is used gets a fresh guard with its path; a guard it replaces deletes its file with Always and spares it otherwise |
| TorrentFileGuards.KeptGuardFate | src/base/addtorrentmanager.cpp:132-152 | event by event: rejecting a dialog and an added report delete as the mode says, a failure report and "do not delete" spare |
| TorrentFileGuards.AddedFileIsDeleted | src/base/addtorrentmanager.cpp:53-141 | an accepted file is deleted with the report of its torrent, with a dialog and without, unless the mode is Never |
| TorrentFileGuards.NextKeepsEndsOnce | src/base/torrentfileguard.cpp:42-79 | every operation keeps: no guard ends twice and none that has ended is kept |
| TorrentFileGuards.RunEndsOnce | src/base/torrentfileguard.cpp:42-79 | that holds in every run |
| TorrentFileGuards.AddedDeletesIff | src/base/addtorrentmanager.cpp:132-141 | an added report consumes one pending info-hash and deletes a file exactly if a guard with a path waits for its source |
| TorrentFileGuards.FailedDeletesNothing | src/base/addtorrentmanager.cpp:143-152 | a failure report consumes one pending info-hash and deletes nothing, whatever the mode |
| TorrentFileGuards.DoNotDeleteKeepsFile | src/gui/guiaddtorrentmanager.cpp:253-263 | a dialog accepted with "do not delete" leaves no guard for the source and deletes nothing |
| TorrentFileGuards.ReportDeletesOtherIff | src/base/addtorrentmanager.cpp:132-141 | an added report deletes the file of another torrent if and only if a guard with a path waits for its source and its file held another torrent |
| TorrentFileGuards.NextReportCanDeleteOtherIff | src/base/addtorrentmanager.cpp:132-141 | some next report can delete another torrent's file if and only if an info-hash other than the guard's is pending for a source with a guarded path |
| TorrentFileGuards.NextKeepsOwnIff | src/base/addtorrentmanager.cpp:53-216 | for each event, exactly which check beforehand keeps every pending info-hash of a guarded source the guard's own: none other pending when a file is guarded, none other accepted while it is |
| TorrentFileGuards.NextKeepsOwnReports | src/base/addtorrentmanager.cpp:53-216 | while that holds no operation deletes, with IfAdded, a file of another torrent than the one just reported |
| TorrentFileGuards.RunDeletesOwn | src/base/addtorrentmanager.cpp:53-216 | in every run that passes the checks IfAdded deletes only files of the torrent just reported |
| TorrentFileGuards.ReportForEarlierTorrentDeletes | src/base/addtorrentmanager.cpp:132-141 | a run that fails the check: a file added again with other contents is deleted by the report for the first torrent while the second is pending |
| AddTorrentManagers.TorrentFileGuard.constructor | src/base/torrentfileguard.cpp:42-63 | a new guard is armed, unmarked, and without a path in mode Never |
| AddTorrentManagers.TorrentFileGuard.Destroy | src/base/torrentfileguard.cpp:53-74 | the two destructors remove the file exactly if removal is on, there is a path, and the torrent was added or the mode is Always |
| AddTorrentManagers.AddTorrentManager.SetTorrentFileGuard | src/base/addtorrentmanager.cpp:193-196 | the guard is kept for its source, and one it replaces ends |
| AddTorrentManagers.AddTorrentManager.AddTorrentToSession | src/base/addtorrentmanager.cpp:98-106 | the info-hash is pending for the source exactly if the session accepted the torrent |
| AddTorrentManagers.AddTorrentManager.ProcessTorrent | src/base/addtorrentmanager.cpp:203-216 | a duplicate changes nothing, any other torrent goes to the session |
| AddTorrentManagers.AddTorrentManager.AddTorrent | src/base/addtorrentmanager.cpp:53-96 | adding without a dialog makes the step of the protocol for each kind of source, the guard kept before the session is asked |
| AddTorrentManagers.AddTorrentManager.AddTorrentByDialog | src/gui/guiaddtorrentmanager.cpp:94-148 | adding with a dialog keeps the guard only if a dialog is shown, and ends it otherwise |
| AddTorrentManagers.AddTorrentManager.OnDialogAccepted | src/gui/guiaddtorrentmanager.cpp:253-263 | accepting adds the torrent, after the guard is released and cancelled when asked |
| AddTorrentManagers.AddTorrentManager.OnDialogRejected | src/gui/guiaddtorrentmanager.cpp:264-267 | rejecting ends the guard of the source as it is |
| AddTorrentManagers.AddTorrentManager.OnSessionTorrentAdded | src/base/addtorrentmanager.cpp:132-141 | the report consumes the info-hash, marks the guard of its source and ends it |
| AddTorrentManagers.AddTorrentManager.OnSessionAddTorrentFailed | src/base/addtorrentmanager.cpp:143-152 | the report consumes the info-hash, cancels the guard of its source and ends it |
| Logger.PushKeepsWindow | src/base/logger.cpp:73-81 | pushing with the next id keeps the ring the last messages of the whole log, with their positions as ids |
| Logger.LoadNewer | src/base/logger.cpp:38-123 | the branches on the difference of ids return exactly the kept messages with a greater id, in order, for every id asked from |
| Logger.Logger.AddMessage | src/base/logger.cpp:73-81 | the message is logged under the next id and the ring stays the end of the log |
| Logger.Logger.AddPeer | src/base/logger.cpp:83-91 | the same for peers |
| Logger.Logger.GetMessages | src/base/logger.cpp:93-107 | exactly the kept messages newer than the id, in order |
| Logger.Logger.GetPeers | src/base/logger.cpp:109-123 | exactly the kept peers newer than the id, in order |
| Logger.NewerOfWindow | src/base/logger.cpp:93-107 | what a poll delivers is the range of ids from the first kept one it does not know to the last |
| Logger.ClientSeesNoneTwice | src/base/logger.cpp:73-123 | in every run a polling client gets ids in increasing order, none twice, each with the message logged under it |
| Logger.PollMissesOnlyEvicted | src/base/logger.cpp:73-123 | a poll delivers a message logged since the last one exactly if it is still among the last ones kept |
| PathHistory.History.UpdatePathHistory | src/gui/addnewtorrentdialog.cpp:125-138 | the path is moved or put to the front and the list cut; it is the first entry, and there are no more than the length allows |
| PathHistory.CutKeeps | src/gui/addnewtorrentdialog.cpp:137-137 | the cut keeps as many entries from the front as the length allows, and all with a negative one |
| PathHistory.CutCommutes | src/gui/addnewtorrentdialog.cpp:131-137 | cutting before or after the use of a path makes no difference to what is kept |
| PathHistory.StoredIsFirstOfAll | src/gui/addnewtorrentdialog.cpp:125-138 | after any uses the stored list is the first part of the unlimited one and names no path twice |
| PathHistory.AllIsByLastUse | src/gui/addnewtorrentdialog.cpp:125-138 | the unlimited list names exactly the used paths, the most recently used first |

## Left out

Platform and library:

- Windows and macOS branches: drive letters, case-insensitive comparison, native separators.
- `QDir::cleanPath` and `QDir::relativeFilePath` are spelt out as a stack normaliser and as common prefix, ".." and rest; their own code is not part of this model.
- RelativePathIs, RelativeLeadsBack: state the result for an absolute base; relative bases are covered by `RelativePathFromLeadsBack` and `RelativePairIgnoresHome`. Paths starting with ':' are left out.
- PortableRoundTrip: treats a relative path starting with ':' like any other, while the code resolves it as an absolute resource path.
- The MIME database behind `Path::extension` is a function parameter.
- Assertions (`Q_ASSERT`) are not modelled as failures; the model does what a release build does, for example with an empty root folder in `addRootFolder`.
- Integer overflow of ids, sizes and coordinates.
- `QString::toInt` and `QChar::isSpace` are written out for the characters they accept; Latin-1 decoding and trimming of magnet lines are part of the given parse results.

Watched folders:

- The tree is what the directory iterators list; hidden entries, symbolic links and changes of the tree during a pass are left out.
- Loading a torrent, opening a magnet file and parsing its lines are given results; removing and renaming a file always succeeds, is recorded as an effect, and takes the file from its place in the runs of `WatchRuns`.
- The OS watcher is a set of paths with a fixed predicate for what it can watch, the network-file-system check a fixed predicate; delivery of its notifications and the two-second timer are left out, so processing is proved for any path at any time, also after the folder was removed.
- Loading and storing the folders as JSON, log messages, and the destruction of the worker.
- Torrent parameters other than category, save path and automatic management: they are passed on unchanged.

Settings:

- Reading and writing a settings file is atomic, and writing without any change leaves the file alone; the file format and locking of `QSettings` are left out.
- RunIsCrashSafe: assumes that no rename and no removal fails; what happens otherwise is stated by `StaleKeysIff`, `FailedSyncIff`, `RenameFaultRevivesKey` and `RenameThenSyncFaultLosesAll`.
- Locks between threads, and cached values made with a proxy function.
- CacheEqualsFreshLoad: assumes that the value type is stored without loss; conversions are parameters.

Add-torrent dialog and managers:

- HistoryIndependentIff: is stated for metadata paths without ".." items; `LayoutHistoryIndependent` covers those too when there is a shared root folder.
- Renaming single files in the dialog between switches, and file priorities.
- What the session, the duplicate check and the download manager answer are inputs of each event; parameters of downloads, merging of trackers, the dialogs' own map and dialogs rejected on shutdown are left out.
- Session reports come as events of their own, not from inside the call that adds the torrent, and guards still kept at shutdown are left out.
- The history's place in the settings store.

Others:

- The command-line message carries only the options modelled; whitespace follows the Unicode list of `QChar::isSpace`.
- Running the external program, and quoting of its arguments after expansion.
- The spacing of the flow layout is one fixed value each way; looking it up in the widget style is left out.
- The ring of the logger is a sequence of bounded length; time stamps are inputs and signals to listeners are left out.
- `Preferences`, settings upgrades, filters, tags, widgets and the download manager: nothing beyond single branches or library calls.
