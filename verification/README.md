# Verified model of the VPS monitor and its WebSSH client

A Dafny model of the parts of the monitor whose correctness is not visible from one
function: the agent's monthly traffic tracker and ping scheduler, the WebSSH file manager
protocol and its lazy directory tree, the two copies of the rate limiter, the migration
runner, the shared connection history, the batched load check, and four smaller algorithms
with strong specifications (Base32 secrets, shell quoting, ping chart rows, drag ordering).

Each component is one or more modules. Where the original changes state step by step there
is a class or a method with loops, and its postcondition ties the new state to a function on
values; the theorems about whole runs are proved of those functions. `dafny verify
dfyconfig.toml` checks everything.

| modules | models |
|---|---|
| `Calendar`, `TrafficTracker` | billing periods and monthly byte totals of the agent |
| `FileManagerProtocol`, `FileManagerSafety`, `FileManagerCancels`, `FileManagerSessions`, `FileManagerBrowsing`, `FileManagerObject` | SFTP file manager: the machine, its transfers, what becomes of cancels, how transfers and sessions end, its history, the object |
| `FileTree`, `FileTreeSafety`, `FileTreeWalks`, `FileTreeObject` | lazy directory tree: the machine, its invariants, where its path walks end, the object |
| `RateLimit`, `RateLimitRuns`, `RateLimitReplies` | durable and local rate limiter, whole runs of both, and what their replies promise |
| `Migrations` | bundled database migrations over an unreliable network |
| `History` | last-writer-wins connection history shared by browser tabs |
| `LoadAlerts`, `LoadAlertRules` | load rules grouped into shared queries, and what the rules call for |
| `BitStrings`, `Base32`, `ShellQuote`, `PingChart`, `NodeOrder`, `PingScheduler` | the smaller algorithms |

## Main results

* **Traffic.** Over every run with any number of reboots, the total reported for a period
  never exceeds the bytes truly moved since the last sample before the period, or since its
  start (`BilledNeverExceedsMoved`), and is at least the growth the samples show
  (`SeenGrowthIsBilled`). A boot that began inside the period is billed in full exactly when a
  condition on the stored record and the sample holds (`CurrentBootBilledExactly`), which
  known boot times guarantee (`CurrentBootIsBilled`) and unknown ones can break in every
  period (`UnknownBootUndercounts`). Without a reboot nothing is lost or counted twice
  (`PeriodsAddUp`); with reboots inside a period the total is the sum of the boots' last
  counters exactly as long as no counter overtakes a total that holds other boots too
  (`BootsAddUp`), and what a single sample adds is stated exactly (`CoveredSampleBills`). The reset
  dates are characterised independently (`LastResetIsGreatest`).
* **File manager.** Under every interleaving of server messages, user actions, resets and
  socket loss, what is on the wire for an upload is a prefix of its file, is ended only when
  whole, is never both ended and cancelled, and runs at most one frame ahead of the
  acknowledgements (`UploadGuarantees`). A server that accepts and acknowledges gets the
  whole file in the least number of exchanges (`UploadFromStart`), and a download saves exactly
  what arrived (`DownloadDelivers`). A cancel reaches the server, once (`CancelsReachServer`),
  and nothing of the file is sent after it in any continuation (`CancelledUploadStops`);
  in every run a transfer in progress can end and free the session (`UploadCanEnd`,
  `DownloadCanEnd`). The object with its real fields keeps all this (`FileManagerObject.Drive`).
* **File tree.** Every node reachable from the live root is, in every run, backed by its own
  fetch while loading and by its newest fetch when expanded (`ReachableNodes`); only its own
  current fetch can change it (`OnlyItsOwnFetchChangesANode`), and of all path walks only the
  newest one acts (`OnlyNewestWalkActs`), never on a tree that has replaced its own
  (`OrphanWalkLeavesTreeAlone`). In every run, a server that lists or refuses each directory
  of a path leads the newest walk to its target on a trail with exactly that path, in one
  exchange per directory (`WalkReachesTarget`); where a listing lacks the next directory the
  walk ends there (`WalkStopsShort`), and a path that is shown already is selected without a
  single fetch (`ShownPathIsSelected`).
* **Rate limiter.** The durable object answers a run exactly as a map that is never cleaned if
  and only if no request falls on a running window it has evicted (`AnswersAlikeExactly`);
  that never happens with a forward clock and at most 5000 windows running at once
  (`FewRunningNeverForgets`), and does after 5120 (`FloodIsForgotten`). The local limiter
  answers like that map in every run with a forward clock (`ServeLocal`). The map grants at
  most `max` per window and `2 * max` in any span of one window length (`GrantsAreLimited`),
  and so do the limiters' own replies under these conditions (`LimitersKeepLimits`). What a
  reply promises is kept too: after `retryAfter` seconds the key starts afresh, and until
  then exactly `remaining` further requests are allowed (`LimitersKeepPromises`).
* **Migrations.** Over any sequence of attempts and any losses of requests and replies, each
  migration commits at most once and the database stands at a prefix of the bundle
  (`AttemptsAreSafe`, `FreshDatabaseHoldsPrefix`); `f` losses cost at most `f` attempts
  (`RetryingSucceeds`).
* **History.** Any serial order of the same updates leaves the same history, which holds
  exactly the newest entry of every key (`OrderDoesNotMatter`, `NoUpdateIsLost`), and the tab
  that made a change shows that history whatever became of it (`ActingTabShowsHistory`).
* **Load alerts.** Grouping is invisible: the same alerts and stamps as one query per rule
  (`BatchingIsInvisible`). Said from the stored rules alone, the check sends exactly the alerts
  they call for, each once (`CheckSendsExactly`, `AlertsExactly`), and over any checks with a
  forward clock two that alert for a rule are at least its interval apart (`AlertsAreSpaced`).

## Where the code and its documentation differ

* The comment at webssh/src/file-tree.ts:164 says that whatever replaces or clears the root
  advances the tree epoch. The code keeps this for every step except `setReady(true)`, which
  installs a new root in the same epoch. `RootChangesAdvanceEpoch` states the exact
  condition, `ReadyTwiceOrphansAFetch` is a run in which a fetch of the replaced tree still
  passes the guards, and `UnreachableFetchLeavesTreeAlone` shows that it cannot reach the
  live tree.
* Path walks check only their own token, not the epoch, so a walk can still select a path after
  its tree was torn down (`WalkOutlivesItsTree`); it cannot touch the tree that came after.
* The comment at worker/src/do/rate-limit.ts:124 says that correctness does not depend on
  compaction. It does beyond 5000 running windows, as `FloodIsForgotten` shows.
* Base32 decoding accepts texts that no encoder produces. `EncodeUndoesDecode` states exactly
  which accepted texts encode back to themselves.

## Model

| member | source | states |
|---|---|---|
| `Calendar.ResetDateRule` | agent/main.go:2265-2272 | a month's reset date is its reset day if the month has one, else the first day of the next month |
| `Calendar.ConsecutiveResets` | agent/main.go:2265-2272 | the reset dates of two successive months lie 28 to 31 days apart, for every reset day |
| `Calendar.ResetsIncrease` | agent/main.go:2265-2272 | reset dates of later months are strictly later, by at least 28 days a month |
| `Calendar.LastResetMonth` | agent/main.go:2255-2263 | the result is the reset date of a month, not after the instant, and the next month's reset date is after it |
| `Calendar.LastResetIsGreatest` | agent/main.go:2255-2263 | the result is the greatest of all reset dates not after the instant, for every instant and every reset day |
| `Calendar.PeriodsFollowClock` | agent/main.go:2250-2263 | later instants are never in an earlier period, and share the period exactly when its start is not after the earlier one |
| `Calendar.EarlyInPeriod` | agent/main.go:2255-2272 | the four weeks after a month's reset date belong to the period it begins |
| `Calendar.NormalizeResetDay` | agent/main.go:2207-2215 | the reset day lies in 1..31 and is kept when it already does |
| `Calendar.MonthOfIsUnique` | agent/main.go:2255-2263 | exactly one month contains a day, and it is the one found |
| `Calendar.YearStarts` | agent/main.go:2255-2272 | the first day of year y is day 365 y plus the leap years before it, for every year |
| `Calendar.FourCenturies` | agent/main.go:2255-2272 | the calendar repeats after 146097 days |
| `Calendar.MonthLengths` | agent/main.go:2265-2268 | the last day of each month, with February by the Gregorian leap year rule |
| `TrafficTracker.MonthlyPlanIsLawful` | agent/main.go:2250-2272 | the agent's calendar cuts time into periods by the clock and nothing else |
| `TrafficTracker.EpochIs1970` | agent/main.go:2286-2291 | boot times count seconds from the first moment of 1970 of that calendar |
| `TrafficTracker.TrafficResetTracker.constructor` | agent/main.go:2217-2223 | a tracker has a reset day in 1..31, its scope and the loaded record |
| `TrafficTracker.TrafficResetTracker.AdjustSinceBoot` | agent/main.go:2304-2431 | one sample takes the stored record through exactly one of the five cases and returns the new total; what each case bills is said by the four rows that follow |
| `TrafficTracker.CoveredSampleBills` | agent/main.go:2317-2346 | a sample of a boot inside the stored period adds the whole counter after a reboot and what the counter grew by otherwise, unless the counter has overtaken the total, which it then replaces; so the sample is billed exactly if and only if it does not overtake a total that holds other bytes |
| `TrafficTracker.UncoveredSampleBills` | agent/main.go:2394-2430 | a boot before the period, or of unknown time, bills what the counter rose by since the last sample, in either direction alone, from the old total or from zero in a new period |
| `TrafficTracker.FirstOfPeriodBills` | agent/main.go:2373-2391 | the first sample of a period or of other settings bills a boot inside the period whole, and otherwise starts new settings at zero |
| `TrafficTracker.LegacyRecordBills` | agent/main.go:2347-2371 | a record of an old state file goes on from its baseline in its period and from zero in another, and the baseline is gone |
| `TrafficTracker.TrafficResetTracker.CountGrowth` | agent/main.go:2394-2430 | the counter's growth is added to the period's total, or starts the total of a new period; nothing else in the record changes |
| `TrafficTracker.AdjustKeepsSound` | agent/main.go:2304-2431 | every case keeps totals non-negative and the legacy baseline at zero, and moves the record to the sample's period |
| `TrafficTracker.TotalsNeverFall` | agent/main.go:2321-2430 | totals never decrease within one stored period, for arbitrary counters and boot times |
| `TrafficTracker.AdjustIsIdempotent` | agent/main.go:2321-2430 | presenting a sample again changes neither totals nor record |
| `TrafficTracker.RunFacts` | agent/main.go:2304-2431 | after any run the record is sound, of the last sample's period, and remembers its counter and boot |
| `TrafficTracker.AdjustStaysBelow` | agent/main.go:2321-2430 | one more sample, whichever case it takes, keeps the total below the bytes truly moved |
| `TrafficTracker.BilledNeverExceedsMoved` | agent/main.go:2304-2431 | over every run with any reboots and unknown boot times, a period's total is at most the bytes moved since the last sample before the period or, when there was none, since the first moment of the period |
| `TrafficTracker.BilledInFull` | agent/main.go:2317-2430 | for every record and sample, a boot inside the period is billed in full exactly when the two do not meet the undercounting condition, which reads only them |
| `TrafficTracker.CurrentBootBilledExactly` | agent/main.go:2304-2431 | the same after every run, with any reboots and unknown boot times |
| `TrafficTracker.CurrentBootIsBilled` | agent/main.go:2317-2430 | known boot times never meet that condition, so a boot that began inside the period is then always billed in full |
| `TrafficTracker.SeenGrowthIsBilled` | agent/main.go:2304-2431 | whatever is known of boots and whenever they began, a period's total is at least the growth its samples show of a counter, since any sample in the period or since the last one before it |
| `TrafficTracker.UnknownBootUndercounts` | agent/main.go:2394-2430 | in every billing period of the agent's calendar there is a run of a real machine, with unknown boot times, that meets the condition and bills the current boot too little |
| `TrafficTracker.EntryAddsGrowth` | agent/main.go:2394-2430 | within one boot a sample adds exactly the counter's growth to all that was ever billed |
| `TrafficTracker.BootsAddUp` | agent/main.go:2317-2346 | with any boots of known times inside one period the total is at most the sum of the boots' last counters, at least the last counter, and equal to the sum if and only if no sample overtook a total that held other boots |
| `TrafficTracker.PeriodsAddUp` | agent/main.go:2317-2430 | without a reboot the final totals of all periods add up to the counter's growth since the first sample, or to the whole counter if boot fell in the first period |
| `TrafficTracker.MonthlyBills` | agent/main.go:2207-2431 | both billing theorems for the agent's own calendar and any configured reset day |
| `FileManagerSafety.StepSafe` | webssh/src/file-manager.ts:248-1160 | every step from every safe state keeps every transfer safe |
| `FileManagerSafety.EveryRunIsSafe` | webssh/src/file-manager.ts:248-1160 | no interleaving of server, user and socket events breaks the transfer invariant |
| `FileManagerSafety.UploadGuarantees` | webssh/src/file-manager.ts:418-471 | for any upload ever started in any run: data frames concatenate to a prefix of the file (the first `sent` bytes while it is active), end only when whole, never end and cancel, frames at most progress messages plus one, never an upload and a download together |
| `FileManagerSafety.UploadReadySafe` | webssh/src/file-manager.ts:873-882 | when the server accepts the start, what is then sent (first slice, end of an empty file, or a waiting cancel) keeps the transfer invariant |
| `FileManagerSafety.UploadProgressSafe` | webssh/src/file-manager.ts:884-896 | an acknowledgement, whatever it claims, keeps the transfer invariant: the count of frames stays within acknowledgements plus one |
| `FileManagerSafety.SliceReadSafe` | webssh/src/file-manager.ts:898-913 | a slice whose read finishes after any interleaved cancel, reset or socket loss keeps the transfer invariant: the payload stays a prefix of the file |
| `FileManagerSafety.CancelUploadSafe` | webssh/src/file-manager.ts:1095-1110 | the user's cancel keeps the transfer invariant: no upload has both an end and a cancel on the wire; that the cancel is sent is `FileManagerSessions.CancelUpload` |
| `FileManagerSafety.BinarySafe` | webssh/src/file-manager.ts:953-973 | binary data keeps the transfer invariant: a download never holds more than 64 MiB and counts exactly what it holds |
| `FileManagerSafety.DownloadDoneSafe` | webssh/src/file-manager.ts:975-994 | the end of a download keeps the transfer invariant: every saved file has at most 64 MiB |
| `FileManagerSafety.OneExchange` | webssh/src/file-manager.ts:884-913 | one slice and its acknowledgement lead to the next slice, or to the end exactly when the file is whole |
| `FileManagerSafety.UploadFromStart` | webssh/src/file-manager.ts:418-471 | from an idle session: a server that accepts and acknowledges every slice gets the whole file in ceil(size / 64 KiB) exchanges, none for an empty file |
| `FileManagerSafety.DownloadDelivers` | webssh/src/file-manager.ts:953-994 | an uncancelled download saves exactly the concatenation of what arrived, blobs or not, if it has the announced size, and nothing otherwise |
| `FileManagerSafety.DownloadFromStart` | webssh/src/file-manager.ts:473-994 | from an idle session: a download of at most 64 MiB that the server starts and nobody cancels saves exactly what arrived, if that has the size announced last, and nothing otherwise |
| `FileManagerCancels.EveryRunTells` | webssh/src/file-manager.ts:873-1116 | in every run the records agree with the wire: the end and the cancel of a transfer are on it exactly if the record says so, and a cancel that can be sent has been |
| `FileManagerCancels.CancelsReachServer` | webssh/src/file-manager.ts:1095-1110 | in every run, a cancelled upload that the server accepted has its cancel on the wire while the socket is open, and no end or cancel is ever sent twice |
| `FileManagerCancels.DownloadCancelsReachServer` | webssh/src/file-manager.ts:1112-1116 | the same for a download the server has started, in every run in which no message precedes the opening of the socket |
| `FileManagerCancels.CancelledUploadStops` | webssh/src/file-manager.ts:898-913 | once an upload is cancelled, no continuation of the run sends another byte of its file, or its end |
| `FileManagerCancels.ClosedIsSilent` | webssh/src/file-manager.ts:1136-1142 | nothing is sent through a socket that is not open, whatever happens |
| `FileManagerCancels.CloseIsNoticed` | webssh/src/file-manager.ts:564-626 | a close announced by the server or seen by the browser leaves a socket that is not open |
| `FileManagerSessions.EveryRunIsBooked` | webssh/src/file-manager.ts:1118-1134 | in every run a transfer belongs to the current session and has its record, and the listing waited for is no transfer |
| `FileManagerSessions.UploadCanEnd` | webssh/src/file-manager.ts:915-1094 | in every run, the completion and the error of an upload free the session, and so does the answer to its cancel, which is ignored unless it was cancelled |
| `FileManagerSessions.DownloadCanEnd` | webssh/src/file-manager.ts:975-1094 | the same for a download |
| `FileManagerSessions.ListingCanEnd` | webssh/src/file-manager.ts:996-1023 | in every run the error of the listing waited for clears it, a late error of another does not, and neither changes what is shown |
| `FileManagerSessions.RefreshLists` | webssh/src/file-manager.ts:375-377 | a refresh sends exactly one listing of the shown directory and waits for it |
| `FileManagerSessions.ChangeIsFollowedByRefresh` | webssh/src/file-manager.ts:864-924 | in every run the completion of an upload or of another change is followed by that listing |
| `FileManagerSessions.SocketLost` | webssh/src/file-manager.ts:289-307 | a lost socket ends transfers and listings and keeps the place, the history and the session number |
| `FileManagerSessions.OtherRepliesLeaveTransfer` | webssh/src/file-manager.ts:915-1134 | messages about other requests leave the transfer in progress alone |
| `FileManagerSessions.ResetForgets` | webssh/src/file-manager.ts:316-342 | a reset says goodbye on an open socket and forgets the session: transfers, requests, place, history and question |
| `FileManagerSessions.CancelUpload` | webssh/src/file-manager.ts:1095-1110 | in every run, cancelling sends exactly the cancel frame at once if the server accepted the upload, with its accept otherwise, and does nothing once the end is out |
| `FileManagerSessions.CancelDownload` | webssh/src/file-manager.ts:1095-1116 | the same for a download and its start |
| `FileManagerSessions.TooLargeIsCancelled` | webssh/src/file-manager.ts:926-973 | a download announced, or found, to exceed 64 MiB is cancelled with its frame |
| `FileManagerSessions.TooLargeIsRefused` | webssh/src/file-manager.ts:418-498 | an upload or download over 64 MiB does not start, and any other does in an idle session |
| `FileManagerSessions.CancelRound` | webssh/src/file-manager.ts:418-1110 | asked for, cancelled, accepted and confirmed: start and cancel are all that was sent, and the session can upload again |
| `FileManagerSessions.QuestionSettled` | webssh/src/file-manager.ts:418-471 | the overwrite question agreed to is the same as never asked, and declined the same as nothing |
| `FileManagerSessions.OldQuestionIsMoot` | webssh/src/file-manager.ts:418-471 | the answer to a question of an earlier session only closes that question |
| `FileManagerSessions.NewSession` | webssh/src/file-manager.ts:248-342 | whatever went before, attaching, opening and the first `ready` give an idle session in the announced directory, with goodbye, greeting and that listing on the wire |
| `FileManagerSessions.StaleMessages` | webssh/src/file-manager.ts:564-641 | messages of earlier sessions and a second `ready` change nothing |
| `FileManagerSessions.ProgressShown` | webssh/src/file-manager.ts:884-896 | the progress shown never falls below what it was, never passes the file's size, and otherwise is what the server reports |
| `FileManagerBrowsing.StepBrowses` | webssh/src/file-manager.ts:248-1160 | every step keeps the history index in bounds and waits only for the newest listing |
| `FileManagerBrowsing.HistoryIndexInBounds` | webssh/src/file-manager.ts:362-377 | in every reachable state the history index lies inside the history, whatever the server replies |
| `FileManagerBrowsing.ShownIsCurrentEntry` | webssh/src/file-manager.ts:628-710 | with a server that echoes paths the shown directory is always the current history entry |
| `FileManagerBrowsing.OnlyNewestReplyApplies` | webssh/src/file-manager.ts:643-710 | a listing reply changes what is shown only if it answers the newest listing request ever sent |
| `FileManagerBrowsing.AskAndReply` | webssh/src/file-manager.ts:643-710 | a usable reply to a listing is shown: a move cuts the history after the current entry and adds the directory unless it is that entry, going back sets the index, a refresh does neither; an unusable one leaves the view as it was; either way it is no longer waited for |
| `FileManagerBrowsing.BackReturns` | webssh/src/file-manager.ts:362-365 | going back after a move shows the directory left, at its old history position |
| `FileManagerObject.FileManager.Step` | webssh/src/file-manager.ts:248-1160 | whatever happens to the object, cut at its awaits, is one step of the protocol machine and keeps the transfer and history invariants |
| `FileManagerObject.Drive` | webssh/src/file-manager.ts:248-1160 | the object goes through exactly the runs of the machine: after any events its wire holds only sound uploads, its index is inside its history, and it never has two transfers |
| `FileTreeSafety.StepSound` | webssh/src/file-tree.ts:204-698 | every step from every sound state keeps the tree sound |
| `FileTreeSafety.EveryRunIsSound` | webssh/src/file-tree.ts:204-698 | every interleaving of expands, collapses, walks, fetches and teardowns keeps the invariant |
| `FileTreeSafety.ReachableNodes` | webssh/src/file-tree.ts:500-602 | a loading node below the live root has an in-flight fetch for its current token that a second caller is given, never the fallback; an expanded one shows its newest fetch |
| `FileTreeSafety.OnlyItsOwnFetchChangesANode` | webssh/src/file-tree.ts:531-590 | in every run, a settling fetch changes a node below the live root only if it was asked for that node under its current token and epoch and is still the one in flight |
| `FileTreeSafety.TeardownMakesStale` | webssh/src/file-tree.ts:204-213 | a teardown makes every fetch then in flight stale |
| `FileTreeSafety.UnreachableFetchLeavesTreeAlone` | webssh/src/file-tree.ts:500-590 | a fetch for a node that is not below the live root changes nothing below it |
| `FileTreeSafety.EveryRunKeepsTokens` | webssh/src/file-tree.ts:225-238 | in every run the waiting walks carry different tokens, none newer than the newest `setCwd` |
| `FileTreeSafety.OnlyNewestWalkActs` | webssh/src/file-tree.ts:610-698 | in every run, a walk that goes on after an await changes nodes, selection or fetches only if it is that of the newest `setCwd`, and then no other such walk waits |
| `FileTreeSafety.OrphanWalkLeavesTreeAlone` | webssh/src/file-tree.ts:610-698 | in every run, a walk whose tree is no longer the newest changes no way down from the live root and no node on one |
| `FileTreeSafety.WalkOutlivesItsTree` | webssh/src/file-tree.ts:610-698 | a run in which the tree is gone and nothing selected, and a walk of it then selects its old target |
| `FileTreeSafety.RootChangesAdvanceEpoch` | webssh/src/file-tree.ts:156-166 | a step that changes the root advances the epoch exactly when it is not `setReady(true)` |
| `FileTreeSafety.ReadyTwiceOrphansAFetch` | webssh/src/file-tree.ts:204-219 | a run in which a fetch of a replaced tree is not recognised as stale |
| `FileTreeSafety.SegmentsAreChildPaths` | webssh/src/file-tree.ts:94-111 | every segment is the path a listing gives the child named by the next part, and a descendant of the one before |
| `FileTreeSafety.SegmentsRoundTrip` | webssh/src/file-tree.ts:94-104 | splitting the path made of some names gives the names back and ends in the path |
| `FileTreeWalks.SettleTakesEffect` | webssh/src/file-tree.ts:530-590 | a current listing leaves its node expanded with one new collapsed child per visible entry in order, a refusal leaves it passed over on the way to the selected directory and failed elsewhere, and nothing else changes |
| `FileTreeWalks.AnswerTakesEffect` | webssh/src/file-tree.ts:530-590 | the same in every run for the fetch of any loading node below the live root |
| `FileTreeWalks.ExpandTakesEffect` | webssh/src/file-tree.ts:500-530 | opening a closed or failed directory asks for it once, in this epoch and under a new token, and changes no other node |
| `FileTreeWalks.ActivateTakesEffect` | webssh/src/file-tree.ts:761-776 | activating a node selects it and opens an available directory |
| `FileTreeWalks.CollapseTakesEffect` | webssh/src/file-tree.ts:593-602 | collapsing hides the children and makes every fetch of the node in flight superseded |
| `FileTreeWalks.TreeBeginsAndEnds` | webssh/src/file-tree.ts:204-256 | a teardown leaves nothing shown or selected and a later epoch; a new tree shows its closed root and nothing selected |
| `FileTreeWalks.ShownPathIsSelected` | webssh/src/file-tree.ts:610-698 | a walk along directories that are expanded, or passed over below the root, with distinct sibling names selects the target and changes nothing else: no fetch, no second synthetic node, no waiting walk |
| `FileTreeWalks.WalkWaits` | webssh/src/file-tree.ts:616-692 | a walk does not go on while the fetch it waits for is in flight |
| `FileTreeWalks.NextDirectory` | webssh/src/file-tree.ts:616-671 | one exchange takes a waiting walk to the next directory, listed or synthetic, and has it asked for |
| `FileTreeWalks.NamesAreNormal` | webssh/src/file-tree.ts:94-105 | the root and every path of names joined by single slashes is its own last segment, as the walk theorems ask |
| `FileTreeWalks.WalkReachesTarget` | webssh/src/file-tree.ts:610-698 | in every run, from any open part of the tree, a server that lists the next directory or refuses at every step leads the walk to the target: selected, below the root on a trail with exactly the path's directories, each expanded or passed over as answered, one exchange each and no walk left |
| `FileTreeWalks.WalkStopsShort` | webssh/src/file-tree.ts:668-698 | where a directory's listing lacks the next one the walk ends with that directory expanded and selected, and nothing below it is asked for |
| `FileTreeWalks.WalkInFreshTree` | webssh/src/file-tree.ts:204-236 | in particular after any run a fresh tree is opened down to the target |
| `FileTreeObject.SplitPathSegments` | webssh/src/file-tree.ts:94-104 | the loop computes the ancestors of a path, root first |
| `FileTreeObject.FileTreeView.MakeChildren` | webssh/src/file-tree.ts:539-541 | the loop makes one collapsed child per visible entry, in order, and touches no other node |
| `FileTreeObject.FileTreeView.ExpandToPath` | webssh/src/file-tree.ts:610-698 | the loop is the walk of the machine, whose end `FileTreeWalks.WalkReachesTarget` and `WalkStopsShort` give |
| `FileTreeObject.FileTreeView.Step` | webssh/src/file-tree.ts:204-698 | whatever happens to the object, cut at its awaits, is one step of the machine and keeps the tree invariant |
| `FileTreeObject.Drive` | webssh/src/file-tree.ts:204-698 | the object goes through exactly the runs the theorems about the tree quantify over |
| `RateLimit.RateLimitDO.CheckRateLimit` | worker/src/do/rate-limit.ts:46-72 | one request: the reply and the new storage, counter and alarm; what the reply means is `RateLimitReplies.ReplyMeans` |
| `RateLimit.RateLimitDO.CleanupExpiredBuckets` | worker/src/do/rate-limit.ts:75-88 | exactly the expired buckets go |
| `RateLimit.RateLimitDO.EnforceBucketLimit` | worker/src/do/rate-limit.ts:101-126 | nothing up to 5000 buckets; beyond, expired ones go and then those that reset first, down to 5000 |
| `RateLimit.RateLimitDO.EvictOldest` | worker/src/do/rate-limit.ts:118-122 | exactly 5000 buckets stay, unchanged, and none that went resets later than one that stayed |
| `RateLimit.RateLimitDO.OnAlarm` | worker/src/do/rate-limit.ts:128-144 | the alarm sweeps, compacts and rearms itself while buckets remain, in every state |
| `RateLimit.OldestKey` | worker/src/do/rate-limit.ts:118-121 | the bucket chosen for eviction resets no later than any other |
| `RateLimit.LocalLimiter.Check` | worker/src/routes/setup.ts:82-102 | one request: the reply and the buckets after sweeping and counting; what the reply means is `RateLimitReplies.ReplyMeans` |
| `RateLimitRuns.AnswersAlikeExactly` | worker/src/do/rate-limit.ts:46-144 | in every run, whatever is evicted, the object's answers are those of a map that is never cleaned if and only if no request falls on a running window the object has forgotten |
| `RateLimitRuns.FewRunningNeverForgets` | worker/src/do/rate-limit.ts:46-144 | with a clock that never goes back and at most 5000 windows running at any event, nothing is ever forgotten |
| `RateLimitRuns.FloodIsForgotten` | worker/src/do/rate-limit.ts:101-126 | after any 5120 requests for different keys whose windows all run, some key is forgotten and its next request is answered differently from the map, whichever ties are broken |
| `RateLimitRuns.FloodExists` | worker/src/do/rate-limit.ts:38-44 | such requests exist that pass validation, for up to 8100 keys and every time: short buckets and addresses, windows of a minute, a limit of one |
| `RateLimitRuns.LimitersAnswerAlike` | worker/src/routes/setup.ts:82-102 | with a clock that never goes back, the local limiter answers the next request as that map after every run, and the durable object after every run with at most 5000 windows running at any event |
| `RateLimitRuns.ServeDurable` | worker/src/do/rate-limit.ts:46-144 | the object itself goes through such a run for any events at all, and gives exactly the map's replies with a forward clock and at most 5000 windows running |
| `RateLimitRuns.ServeLocal` | worker/src/routes/setup.ts:82-102 | the local limiter itself, through any run in which the clock never goes back, gives exactly that map's replies |
| `RateLimitRuns.WindowGrants` | worker/src/do/rate-limit.ts:52-72 | a window grants exactly min(requests, max), and no later window has granted anything |
| `RateLimitRuns.SpanMeetsTwoWindows` | worker/src/do/rate-limit.ts:52-72 | a span of one window length meets at most two windows of a key |
| `RateLimitRuns.GrantsAreLimited` | worker/src/do/rate-limit.ts:52-72 | with a forward clock, the map that is never cleaned grants a key at most `max` per window and `2 * max` in any closed span of one window length |
| `RateLimitRuns.LimitersKeepLimits` | worker/src/do/rate-limit.ts:46-144 | the same of the limiters' own replies: of the durable object with at most 5000 windows running, and of the local limiter for any span |
| `RateLimitRuns.StorageIsTidy` | worker/src/do/rate-limit.ts:46-144 | in every run with a forward clock the object stores at most 5000 buckets and one for each request since the last compaction, and never without a clean-up alarm in the next five minutes |
| `RateLimitReplies.ReplyMeans` | worker/src/do/rate-limit.ts:64-72 | waiting `retryAfter` seconds ends the window and a second less does not, `reset` is the second it ends in, `remaining` is what it still allows and nothing if refused |
| `RateLimitReplies.WindowCounts` | worker/src/do/rate-limit.ts:52-62 | inside a window the bucket counts each request and allows exactly the smaller of those asked and those left |
| `RateLimitReplies.OwnAnswers` | worker/src/routes/setup.ts:82-102 | event by event both limiters give the answers of the map that is never cleaned, the object with at most 5000 windows running |
| `RateLimitReplies.LimitersKeepPromises` | worker/src/do/rate-limit.ts:46-72 | in the limiters' own answers: `retryAfter` seconds later a key, refused or not, starts a fresh window, and among the further requests inside the window exactly `remaining` are allowed |
| `Migrations.Database.Ensure` | worker/src/routes/setup.ts:287-297 | the table exists afterwards if the request ran, and its rows are kept |
| `Migrations.Database.Select` | worker/src/routes/setup.ts:304-315 | the recorded checksums by non-empty version, or an error |
| `Migrations.Database.Run` | worker/src/routes/setup.ts:317-333 | one transaction: the migration and its record both, or neither, with or without a reply |
| `Migrations.ApplyBundledMigrations` | worker/src/routes/setup.ts:335-366 | one attempt: skips recorded migrations, runs the others in order, re-reads the table after an error and stops if the migration is not recorded |
| `Migrations.ItemEffect` | worker/src/routes/setup.ts:340-357 | a recorded migration is left alone; another one either commits or ends the attempt |
| `Migrations.LostReplyIsFoundOut` | worker/src/routes/setup.ts:345-357 | a missing migration gets past exactly when its request was answered, or ran and the listing after the lost reply was answered; it then has committed once, called skipped in the second case |
| `Migrations.RecordedMeans` | worker/src/routes/setup.ts:341-343 | recorded means this version with this checksum |
| `Migrations.ChangedMigrationRunsAgain` | worker/src/routes/setup.ts:341-349 | a version recorded with another checksum commits once more, is recorded with the new one, and is skipped from then on |
| `Migrations.AttemptKeepsPrefix` | worker/src/routes/setup.ts:335-366 | an attempt moves the database from one prefix of the bundle to a longer or equal one, to all of it if it succeeds |
| `Migrations.AttemptsAreSafe` | worker/src/routes/setup.ts:304-366 | over any attempts from any table, each migration commits at most once and only if its checksum was missing; after a success all are recorded and exactly the missing ones have committed |
| `Migrations.FreshDatabaseHoldsPrefix` | worker/src/routes/setup.ts:304-366 | from an empty table commits and records are one and the same prefix of the bundle, the whole bundle after a success |
| `Migrations.SuccessReportIsHonest` | worker/src/routes/setup.ts:360-365 | a success reports one line per migration in order, applied and skipped add up to the total, and what it calls applied was committed by this attempt |
| `Migrations.AttemptFailsByFault` | worker/src/routes/setup.ts:335-366 | an attempt fails only if a request of it was spoiled |
| `Migrations.RetryingSucceeds` | worker/src/routes/setup.ts:335-366 | `f` spoiled requests cost at most `f` attempts |
| `BitStrings.ShiftedIn` | worker/src/auth/totp.ts:23-44 | on 32-bit patterns, shifting left and or-ing in a byte or symbol appends its bits to the low ones, although the high ones are lost |
| `BitStrings.MaskedIs` | worker/src/auth/totp.ts:26-47 | on 32-bit patterns, masking with 31 or 255 leaves the number that the low five or eight bits spell |
| `Base32.Base32Encode` | worker/src/auth/totp.ts:18-32 | the text is the bytes' bits, filled with zeros, cut into groups of five |
| `Base32.Base32Decode` | worker/src/auth/totp.ts:34-54 | the bytes are the bits of the trimmed, upper-cased and unpadded text cut into groups of eight without the rest; empty or foreign text is refused |
| `Base32.AnySpellingIsRead` | worker/src/auth/totp.ts:35-35 | a text in any case, with any padding and white space around it, is read as itself |
| `Base32.EncodedBits` | worker/src/auth/totp.ts:18-32 | an encoding spells the bytes' bits and fewer than five zeros, in alphabet symbols only |
| `Base32.DecodeUndoesEncode` | worker/src/auth/totp.ts:18-54 | decoding an encoding returns the bytes, for every non-empty byte string; the encoding of nothing is refused |
| `Base32.DecodeUndoesSpelling` | worker/src/auth/totp.ts:18-54 | so does decoding it in any case, padded and surrounded by white space |
| `Base32.EncodeUndoesDecode` | worker/src/auth/totp.ts:18-54 | an accepted text encodes back to itself exactly when its length modulo 8 is not 1, 3 or 6 and its unused bits are zero |
| `History.NormalizeHistory` | webssh/src/history.ts:28-35 | the loop keeps the first entry of every key of the stable newest-first sort |
| `History.NormalizeFacts` | webssh/src/history.ts:28-35 | for any list: unique keys, newest first, nothing invented, and for every entry one of its key that is not older |
| `History.NormalizeIsOnePass` | webssh/src/history.ts:28-35 | for any list, with equal times too, the entry left of a key is the one a single pass keeps that replaces only by newer ones |
| `History.NormalizeRepresents` | webssh/src/history.ts:28-35 | with distinct times the result holds exactly the newest entry of every key |
| `History.PutRepresents` | webssh/src/history.ts:37-51 | merging one entry into a list that stands for a set gives the list that stands for the set with it |
| `History.TakenExactly` | webssh/src/history.ts:42-51 | whatever the times: an entry is taken unless one of its key is no older and not from the future, and the other keys keep their entries |
| `History.DeleteRepresents` | webssh/src/main.ts:928-931 | deleting a key gives the list that stands for the set without it, and is a no-op exactly when nothing had it |
| `History.Tab.PersistHistoryMutation` | webssh/src/main.ts:917-950 | one locked change: the stored list, the tab's list and both flags, also when writing is refused |
| `History.ChangeStands` | webssh/src/main.ts:917-950 | after a change reported as stored, the history stands for the changed set; otherwise for the old one; also while nothing is stored yet |
| `History.ActingTabShowsHistory` | webssh/src/main.ts:917-950 | stored, without effect or refused: the acting tab shows the history, no other list moves, a change counts as applied exactly when the history changed, and fails only where it could not be written |
| `History.NoUpdateIsLost` | webssh/src/main.ts:917-950 | after any serial run of changes by any tabs, from a store that is there or not, the history stands for exactly what the stored changes left |
| `History.AnyStoreStands` | webssh/src/main.ts:917-925 | the theorems apply to any stored list with distinct times, and to an absent store with one normalised list in every tab |
| `History.StoreAfter` | webssh/src/main.ts:917-950 | after any updates the store is what it was, there or not, if the history was not older than any of them, and otherwise holds exactly the history |
| `History.OrderDoesNotMatter` | webssh/src/history.ts:28-51 | two serial orders of the same updates leave the same history and the same stored list, from any store and also from none |
| `LoadAlerts.EvaluatePlan` | worker/src/index.ts:733-760 | one rule's alerts over its clients in order, then its stamp if it alerted and has an id |
| `LoadAlerts.FilePlan` | worker/src/index.ts:705-719 | a plan joins the group of its key, or a new one at the end |
| `LoadAlerts.GroupRules` | worker/src/index.ts:688-720 | the rules that are due and have clients, in groups by metric, threshold and window; which ones these are is `LoadAlertRules.PlanIsRule` |
| `LoadAlertRules.RunLoadCheck` | worker/src/index.ts:688-762 | the check sends, as a multiset, exactly what the stored rules call for |
| `LoadAlerts.PlanInGroup` | worker/src/index.ts:722-760 | a query over more clients gives a rule the same alerts |
| `LoadAlerts.BatchingIsInvisible` | worker/src/index.ts:688-762 | grouping sends the same multiset of alerts and stamps the same rules as one query per rule |
| `LoadAlerts.PlanAlertsExactly` | worker/src/index.ts:733-760 | a rule alerts exactly its known clients with two or more samples and a high enough share over the threshold, once each and in order, and is stamped exactly if it alerted and has an id |
| `LoadAlerts.OneQueryPerKey` | worker/src/index.ts:705-719 | no two queries ask about the same metric, threshold and window |
| `LoadAlertRules.PlanIsRule` | worker/src/index.ts:688-705 | a rule is planned only when it was never notified or its interval has passed, with 15 minutes, 80 and 0.8 where it has no values of its own and a share clamped to 0..1, and a due rule is left out only if there is nobody to watch |
| `LoadAlertRules.RuleSends` | worker/src/index.ts:733-760 | one rule sends each alert it owes once and nothing else, and one stamp if it sent any and has an id |
| `LoadAlertRules.CheckSendsExactly` | worker/src/index.ts:688-762 | the batched check sends every owed alert, with client, label, average, threshold and shares, once for every time its rule is listed, no other alert, and one stamp for every alerting rule with an id |
| `LoadAlertRules.AlertsExactly` | worker/src/index.ts:688-762 | it alerts for a rule and a client if and only if the rule is listed and due, names the known client or nobody, and the client's samples of the last interval, two or more, are over the threshold in the rule's share |
| `LoadAlertRules.AlertsAreSpaced` | worker/src/index.ts:697-759 | over any checks that write their stamps back, with a forward clock, two that alert for a rule with an id are at least its own interval apart |
| `ShellQuote.QuotedArgumentsReadBack` | frontend/src/utils/agentInstallCommand.ts:145-147 | the quoted, space-joined arguments read back as exactly themselves if none holds a NUL, and not at all otherwise |
| `ShellQuote.QuotingIsInjective` | frontend/src/utils/agentInstallCommand.ts:145-147 | different argument lists never become the same text |
| `ShellQuote.PipedShellGetsArguments` | frontend/src/utils/agentInstallCommand.ts:168-170 | what follows the pipe is `sh -s --` with exactly the given arguments |
| `PingChart.Tolerance` | frontend/src/utils/pingChart.ts:186-190 | the tolerance lies between 800 and 1500 ms |
| `PingChart.SmallestIsLeast` | frontend/src/utils/pingChart.ts:186-189 | the interval used is the least positive one, if there is any |
| `PingChart.ToleranceRule` | frontend/src/utils/pingChart.ts:189-190 | within that range it is 40 % of that interval, or of a minute, rounded down to whole milliseconds |
| `PingChart.FindAnchor` | frontend/src/utils/pingChart.ts:178-183 | a row within the tolerance, or none exists |
| `PingChart.Place` | frontend/src/utils/pingChart.ts:199-205 | a record joins the row found, or makes one, and overwrites its task's cell |
| `PingChart.BuildPingChartRows` | frontend/src/utils/pingChart.ts:185-210 | the nested loops build the chart of all valid records in order, sorted by time |
| `PingChart.RowsAreApart` | frontend/src/utils/pingChart.ts:185-210 | for any series, rows are strictly sorted and more than the tolerance apart |
| `PingChart.RecordHasRow` | frontend/src/utils/pingChart.ts:195-204 | every valid record belongs to a row within the tolerance |
| `PingChart.RowHasRecord` | frontend/src/utils/pingChart.ts:199-204 | every row was made by a record at exactly its time |
| `PingChart.CellsAreLast` | frontend/src/utils/pingChart.ts:195-207 | a row's cells are exactly the last processed records of the tasks that have one in it, a negative value becoming none |
| `NodeOrder.MoveAdminNodeInVisibleOrder` | frontend/src/utils/adminNodeOrder.ts:4-21 | for any lists: unchanged if an id is not visible, else the moved visible nodes in the places of visible uuids, renumbered, with an empty object where they run out |
| `NodeOrder.DragMoves` | frontend/src/utils/adminNodeOrder.ts:10-14 | the list moves exactly when both nodes are visible, from the index of the one to that of the other |
| `NodeOrder.EmptyPlacesExactly` | frontend/src/utils/adminNodeOrder.ts:17-20 | a place stays empty exactly when the full list holds more visible uuids than there are visible nodes |
| `NodeOrder.PermutesExactly` | frontend/src/utils/adminNodeOrder.ts:15-20 | the uuids are permuted exactly when those at the visible places are, with repetitions, the first ones of the moved list |
| `NodeOrder.MovedFacts` | frontend/src/utils/adminNodeOrder.ts:14-14 | the dragged node lands at the target's index and the others keep their order |
| `NodeOrder.PlacesMatch` | frontend/src/utils/adminNodeOrder.ts:15-20 | there are exactly as many places as moved nodes |
| `NodeOrder.ReorderingIsLocal` | frontend/src/utils/adminNodeOrder.ts:4-21 | when the visible list is a part of the full one without repetitions: no empty place, a permutation of all nodes by uuid, hidden nodes keep their index, the visible ones read in order are the moved list but for their sort order, which is 1..n over all |
| `PingScheduler.Interval` | agent/main.go:258-267 | the task's own interval when positive, else the agent's when positive, else two minutes; at least one second |
| `PingScheduler.PingTaskScheduler.DueTasks` | agent/main.go:277-305 | the tasks emitted and the times remembered by one call |
| `PingScheduler.PingTaskScheduler.ForgetAllBut` | agent/main.go:298-302 | exactly the ids no longer listed are forgotten |
| `PingScheduler.RemembersListed` | agent/main.go:277-305 | after any run the remembered ids are exactly the positive ids of the last list |
| `PingScheduler.EmittedOncePerCall` | agent/main.go:277-305 | a call emits listed tasks only, and no id twice |
| `PingScheduler.RunsAreSpaced` | agent/main.go:277-305 | two runs of an id that stayed listed are at least the later task's interval apart |
| `PingScheduler.NoTaskStarves` | agent/main.go:277-305 | a listed task whose interval has passed since the last run of its id, or whose id never ran, is emitted |

## Left out

- Metric collection, probes, alerts other than load alerts, cookies, sessions and cryptography: operating system, network and foreign calls.
- Loading and saving the tracker's JSON file: persistence is keeping the record; crashes inside a save are not modelled.
- Time zones: instants are whole local wall-clock seconds, so clock changes and fractions of a second are not modelled.
- Byte counters are unbounded integers; 64-bit overflow is not modelled.
- TrafficTracker.BilledNeverExceedsMoved: assumes a record without a legacy baseline, which every branch keeps; `Adjust` itself models the legacy branch.
- TrafficTracker.PeriodsAddUp: one boot only; across reboots the code replaces the bytes of earlier boots once the current counter overtakes the total, and `TrafficTracker.BootsAddUp` says exactly when.
- The file manager's DOM, texts, reconnect timer and the separate channel that lists directories for the tree; messages are assumed to pass through the queue.
- Node objects of the tree are named by ids, so aliasing between node references is modelled by equality of ids.
- Path normalisation in `navigate`: paths arrive normalised; their length is counted in characters.
- FileTreeWalks.WalkReachesTarget: links on the way, at which a walk ends, and other clicks while it waits, whose effect the safety theorems bound.
- FileManagerCancels.DownloadCancelsReachServer: assumes that a browser delivers no message before the socket opens; the machine itself accepts such runs.
- Rows, focus and keyboard handling of the tree, and the directory listing the tree asks for, which is an arbitrary answer.
- Payload validation of the rate limiter beyond a limit of at least one, and failures of its storage.
- RateLimit.RateLimitDO.EnforceBucketLimit: leaves open which of several buckets with the same reset time goes first.
- Migrations: a request that commits after the caller has already read the table again, two callers at once, and malformed answers to the listing query.
- History: the key is given (user, host and port are not spelled out), and stored entries are valid.
- History.NoUpdateIsLost: serial changes only, as under the lock; browsers without locks can interleave reads and writes.
- LoadAlertRules.RunLoadCheck: sending and auditing an alert always goes on to the next; arithmetic is over reals.
- PingChart.Tolerance: computed over reals; row keys are `task_<id>`, so no cell can be called `time`.
- The website probe scheduler of the agent, which repeats the ping scheduler with another default.
