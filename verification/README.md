# Verified models of the scouting app's stateful core

The scouting app and its backend keep state across asynchronous steps in a handful of places: the
API client's response cache and request table, the pollers that refresh a page, the monitor that
compares live data with its sources, the tool that proposes the boxes a training set misses, and a
few small tables in the user interface. This project models that code in Dafny, with the source's
branches, constants and order of steps, and proves what holds of it over all inputs and all runs.

Each part is written in two layers. Functions over values say what one uninterrupted step does, and
lemmas prove the properties over all sequences of steps. Where the source updates variables in place
(the API client, the poller, the monitor, the page handshake, the logo lookups) a class does the same
and each of its methods is proved to perform exactly the corresponding step; where it loops over
lists, a method with a loop is proved equal to the function.

| files | what they model |
|---|---|
| `MemoryCache`, `RequestModel`, `ApiSharing`, `ApiAge`, `ApiPending`, `ApiLive`, `ApiClient` | the response cache and request path of `ScoutingApp/src/api.ts` |
| `PollingModel`, `PollingProofs`, `Poller` | the single-flight poller |
| `LiveCheck`, `LiveHistory` | the live consistency monitor |
| `Boxes`, `Sorting`, `Clusters`, `ClusterProofs`, `ClusterOrder`, `ClusterOne`, `ClusterTies` | vote clustering over IoU |
| `Persistence`, `Proposals`, `ProposalFiles`, `WrittenFiles` | the label proposer's passes, report and written files |
| `LabelText`, `LabelFile`, `Rounding` | printing and reading label files |
| `SearchSync` | the handshake between a page's URL and its state |
| `LogoLookup` | the logo limiter and lookup table |
| `ContextKeys`, `Recents` | the lists of recently opened events and teams |
| `Wrappers`, `Integers`, `Sets`, `DigitText` | shared helpers |

Times are whole milliseconds in the app and reals in the monitor; geometry is over the reals.

What turned out to need a condition, or to be false without one:

- In-flight sharing keeps its table exact unless a read that was suspended offline goes on while
  another request for its key runs (`ApiSharing.ExactUnlessOverlap`, for whole runs
  `ApiSharing.CompleteUntilOverlap`, with a run that gets there in `ApiSharing.OfflineReadsOverlap`). While
  the device stays online it never does.
- After a live read has landed and its save has reached localStorage, no cached read begun since the
  landing was or is ever given an older copy if and only if, as the save lands, none was given and none is
  left outside localStorage (`ApiLive.LiveReadsDoNotGoBack`). None is when the landing was quiet (no older save
  still to happen, none with the table's request or with a suspended read that may start one) and no
  read in between took the old copy up from localStorage; quiet is just what that needs
  (`ApiLive.QuietIsExact`). A read that does take it up harms even reads begun after the save: it gives
  the old copy a whole new TTL in memory (`ApiLive.GapReadGoesBack`).
- The age of a served copy is bounded with the delay `D` between a response and its save; with saves
  that land at once, a fresh copy is less than 2T old and one from the stale window less than
  T + max(T, S) + S. Both bounds are reached. A failed refresh gives its sharers the copy it started with, which
  has aged by the time its request took (`ApiPending.CapturedCopiesAreYoung`).
- Let the scores in each view be given and the boxes be free. Every choice of boxes gives the same list of
  merged boxes for every order of the views and of the boxes in each if and only if no two scores are equal or
  the match threshold is 0 or less, where every box matches every other (`ClusterTies.OrderMattersExactly`).
  For any two equal scores there are boxes that come out in another order once that pair is swapped
  (`ClusterTies.TieChangesList`); for some boxes even the number of clusters changes
  (`ClusterOrder.TiesDependOnOrder`).
- At given call times every resolved problem lasted its grace if and only if the clock never slips
  back over that grace: no call past it is followed by one before it, counted from the same start
  (`LiveHistory.ResolvedLastedItsGrace`).
- Label files are named after an image without its suffix. A picture's file holds its own proposals,
  whatever is proposed, if and only if no later reported picture shares its stem
  (`WrittenFiles.OwnFileExactly`).
- The page's hook misses a link exactly to the URL it holds for the page's own while the page neither
  shows nor writes it. A run gets there exactly by a navigation elsewhere that overtakes the page's own
  write, and out again by that link, by rendering an outside URL, or by a new write
  (`SearchSync.LinksAreFollowed`, `SearchSync.StepExactly`); meanwhile such a link can do nothing at all
  (`SearchSync.MissedLinkDoesNothing`). Two lemmas beside them, `WriterOnlyUndoesLinks` and
  `FlipsForever`, only show what the hook is there for.
- A team number and the key written out name the same team exactly when the number has no zeros in
  front (`ContextKeys.SameTeamExactly`).

## Model

| member | source | states |
|---|---|---|
| MemoryCache.Written | ScoutingApp/src/api.ts:278-288 | A write leaves at most 200 entries with the new one last; every other entry was there, unexpired and of another key, and while the map is below 200 none of those is lost |
| MemoryCache.RefinesUnboundedMap | ScoutingApp/src/api.ts:276-288 | Over any mix of writes, timed reads and deletions: no key twice, at most 200 entries, every entry is its key's last write in an unbounded map, and the entry just written is present |
| MemoryCache.HitIsLastWrite | ScoutingApp/src/api.ts:1363-1383 | A memory hit is the last write of its key, inside its fresh or stale window; a deleted or unwritten key is never hit |
| MemoryCache.CalmRun | ScoutingApp/src/api.ts:276-288 | Without expiry and deletions the map is the last 200 entries of the list of all keys in the order of their last writes |
| MemoryCache.KeepsTheMostRecentKeys | ScoutingApp/src/api.ts:276-288 | Without expiry and deletions a key is in the map if and only if it was written and fewer than 200 other keys have been written since |
| ApiSharing.ExactUnlessOverlap | ScoutingApp/src/api.ts:1691-1727 | Every step keeps every table entry on a running cached request for its key; it keeps every such request in the table too, unless a read goes on after an offline pause while another request for its key runs, which always breaks it |
| ApiSharing.CompleteUntilOverlap | ScoutingApp/src/api.ts:1691-1727 | A run keeps every running cached request in the table throughout if and only if none of its events is such a read going on |
| ApiSharing.AlwaysSound | ScoutingApp/src/api.ts:1896-1923 | In every run, offline or not, the table points at running cached requests of its keys and every waiting read waits for one |
| ApiSharing.OneRequestPerKey | ScoutingApp/src/api.ts:1696-1709 | In every run of an online device at most one cached GET per key is running, the table points at exactly that one, and every waiting read waits for a request in the table |
| ApiSharing.SettleSound | ScoutingApp/src/api.ts:1913-1923 | While the table is complete the completion's delete removes exactly its own request's entry; in any case the table stays sound |
| ApiSharing.OfflineReadsOverlap | ScoutingApp/src/api.ts:1711-1726 | For every key, two reads suspended offline lead to a running request that is missing from the table |
| ApiAge.ServedCopiesAreYoung | ScoutingApp/src/api.ts:1661-1689 | Over all runs with one TTL T and stale window S for a key and saves within D: a copy served as fresh is at most 2T + D - 2 old, one from the stale window at most T + D + max(T, S) + S - 1 |
| ApiAge.FreshBoundIsReached | ScoutingApp/src/api.ts:1672-1683 | For all T, S, D some run serves a fresh copy of exactly the bound's age: a fresh saved copy gets a whole new TTL in memory |
| ApiAge.StaleBoundIsReached | ScoutingApp/src/api.ts:1667-1688 | For all T, S > 0, D some run serves a stale copy of exactly the bound's age |
| ApiPending.CapturedCopiesAreYoung | ScoutingApp/src/api.ts:1896-1920 | Over all runs in which also requests end within R, and reads pause for at most P for saved copies at most M old: a failed background refresh gives its sharers a copy at most R older than the oldest a read can start it with, the stale bound, or with saved copies shown first the greater of that and M + D + P + 1998 |
| ApiLive.FloorIsExact | ScoutingApp/src/api.ts:1661-1709 | In every state any run reaches, and for every continuation: no cached read begun since a moment was or will be given a copy received before r if and only if memory, localStorage, the saves under way, the requests such reads share, and the suspended reads that matter hold none; saved-copy-first and offline reads included |
| ApiLive.ClearUnlessTakenUp | ScoutingApp/src/api.ts:1661-1726 | Each event keeps every place but localStorage free of older copies if and only if it does not take one up from there: by a read inside its windows, by a pause for a saved copy or offline, or by a fallback |
| ApiLive.LandingClears | ScoutingApp/src/api.ts:1805-1814 | A live read's landing drops memory's copy and queues its save, and leaves older copies outside localStorage if and only if the landing was not quiet |
| ApiLive.LiveReadsDoNotGoBack | ScoutingApp/src/api.ts:1805-1813 | After any run, for any gap between a live read's landing and its save: no cached read begun since the landing, or since any later moment, was or ever will be given an older copy if and only if, as the save lands, none was given and none is left for it outside localStorage; a quiet landing and a gap that takes none up suffice |
| ApiLive.QuietIsExact | ScoutingApp/src/api.ts:1805-1813 | The landing is quiet if and only if every gap that takes no older copy up ends without one for later reads |
| ApiLive.TakingUpDecides | ScoutingApp/src/api.ts:1661-1689 | After a quiet landing the next event, if the save follows it, does harm if and only if it takes an older copy up from localStorage |
| ApiLive.GapReadGoesBack | ScoutingApp/src/api.ts:1670-1683 | For every key, TTL and read: after a quiet landing, a cached read before its save makes reads begun even after the save go back |
| ApiClient.Client.CacheResponse | ScoutingApp/src/api.ts:278-288 | In place: expired entries go, the key moves to the end, and the eviction loop leaves the newest 200 |
| ApiClient.Client.ReadMemoryGetCache | ScoutingApp/src/api.ts:1363-1383 | In place: a hit within the fresh or stale window, else the entry is deleted |
| ApiClient.Client.ReadPersistentGetCache | ScoutingApp/src/api.ts:1385-1431 | In place: a hit within its windows, else the saved copy goes once its retention is over |
| ApiClient.Client.ApiFetch | ScoutingApp/src/api.ts:1656-1727 | In place: a cached read performs exactly one read step of the transition system, online or offline |
| ApiClient.Client.AnswerOrGoOn | ScoutingApp/src/api.ts:1661-1726 | In place: a fresh copy is the answer; without a candidate the read pauses with a saved copy young enough, or offline with one of any age; else it shares or starts a request |
| ApiClient.Client.ReadCacheAnyAge | ScoutingApp/src/api.ts:1436-1472 | The more recently stored of memory's and localStorage's copies, memory's when they are equal |
| ApiClient.Client.SavedCopyWithin | ScoutingApp/src/api.ts:1601-1604 | That copy, when its age in whole seconds is within the limit |
| ApiClient.Client.ResumeFetch | ScoutingApp/src/api.ts:1691-1726 | In place: what a read does after its saved-copy or offline lookup |
| ApiClient.Client.ShareOrStart | ScoutingApp/src/api.ts:1696-1709 | In place: share the running request, answer with the stale candidate, or start a request and enter it in the table |
| ApiClient.Client.LiveFetch | ScoutingApp/src/api.ts:1818-1829 | In place: a live read starts its own request, outside the table |
| ApiClient.Client.RunLands | ScoutingApp/src/api.ts:1796-1815 | In place: a cached answer is written to memory and saved; a live one drops memory's copy and is saved as never fresh |
| ApiClient.Client.RunSettles | ScoutingApp/src/api.ts:1904-1923 | In place: the readers get the answer, or the captured copy of a failed background refresh, and the table entry is deleted |
| ApiClient.Client.WritePersistentGetCache | ScoutingApp/src/api.ts:1507-1559 | In place: the save lands with its own times, or is dropped |
| ApiClient.Client.SeedGetCache | ScoutingApp/src/api.ts:1575-1586 | In place: a seeded payload is written to memory and saved like an answer |
| ApiClient.Client.OfflineStaleFallback | ScoutingApp/src/api.ts:1926-1961 | In place: a slow or failed request's own reader is given the newest saved copy of any age |
| PollingModel.NormalizedIntervalMs | ScoutingApp/src/hooks/useSingleFlightPolling.ts:39-42 | The whole milliseconds of the value, at least 1000, and 10 s for a value that is not finite |
| PollingProofs.FailureStep | ScoutingApp/src/hooks/useSingleFlightPolling.ts:124-127 | A failure keeps the delay between its bounds and raises it by at least 100 ms or to the ceiling |
| PollingProofs.BackoffReachesCeiling | ScoutingApp/src/hooks/useSingleFlightPolling.ts:121-128 | For every history of outcomes: the delay stays between interval and ceiling, a success resets it to the interval, and ceil((ceiling - interval) / 100) failures in a row put it at the ceiling |
| PollingProofs.FailuresRaiseDelay | ScoutingApp/src/hooks/useSingleFlightPolling.ts:123-128 | Consecutive failures never lower the delay and have raised it by 100 ms each or to the ceiling |
| PollingProofs.DelayFollowsOutcomes | ScoutingApp/src/hooks/useSingleFlightPolling.ts:121-136 | Over every run of a mounted poller the delay is that of its outcomes in order |
| PollingProofs.NeverSilentNeverTwice | ScoutingApp/src/hooks/useSingleFlightPolling.ts:75-174 | In every interleaving: at most one run and one poll timer; while mounted a run is in progress or the timer is armed, with a delay between interval and ceiling |
| PollingProofs.SilentAfterCleanup | ScoutingApp/src/hooks/useSingleFlightPolling.ts:167-174 | After cleanup no timer is armed and no run ever starts, whatever still finishes, fires or waits |
| PollingProofs.AskWhenIdle | ScoutingApp/src/hooks/useSingleFlightPolling.ts:140-154 | A trigger, a pull to refresh or an update while idle starts exactly one run at once, with its reason |
| PollingProofs.AskWhenBusy | ScoutingApp/src/hooks/useSingleFlightPolling.ts:99-137 | Whatever is asked for during a run, none starts before it completes, and exactly then one starts with the last reason asked for; with nothing asked the timer is armed instead |
| Poller.Effect.Execute | ScoutingApp/src/hooks/useSingleFlightPolling.ts:99-110 | In place: start a run, or during one remember the reason or re-arm the poll timer |
| Poller.Effect.RunCompletes | ScoutingApp/src/hooks/useSingleFlightPolling.ts:115-137 | In place: a run's end sets the delay and starts the pending run or arms the timer |
| Poller.Effect.SetNextDelay | ScoutingApp/src/hooks/useSingleFlightPolling.ts:121-128 | In place: the delay after a success or a failure |
| Poller.Effect.Schedule | ScoutingApp/src/hooks/useSingleFlightPolling.ts:90-97 | In place: the old timer is cleared and a new one armed, unless disposed |
| Poller.Effect.TriggerNow | ScoutingApp/src/hooks/useSingleFlightPolling.ts:140-143 | In place: the trigger's step of the transition system |
| Poller.Effect.RefreshAll | ScoutingApp/src/hooks/useSingleFlightPolling.ts:145-154 | In place: a pull to refresh waits for the run in progress or runs at once |
| Poller.Effect.WaitingRefreshWakes | ScoutingApp/src/hooks/useSingleFlightPolling.ts:148-153 | In place: a waiting refresh goes on once the run is over, the effect is gone or 15 s have passed |
| Poller.Effect.Unmount | ScoutingApp/src/hooks/useSingleFlightPolling.ts:167-174 | In place: the cleanup's step |
| LiveCheck.Monitor.Advance | backend/scripts/live_consistency_check.py:135-154 | In place: one call leaves the table with its order, the reports and the list of resolutions that the specification gives, and the table stays the one its whole history of calls makes |
| LiveCheck.ListsResolved | backend/scripts/live_consistency_check.py:149-153 | The list of resolutions has exactly those of the table's problems that are not seen and were reported |
| LiveCheck.Monitor.Observe | backend/scripts/live_consistency_check.py:141-148 | In place: one observation opens or updates its issue and reports it once, when its grace is over |
| LiveCheck.Monitor.Resolve | backend/scripts/live_consistency_check.py:149-153 | In place: exactly the issues not seen are popped, and the reported ones among them listed, in the table's order |
| LiveHistory.IdentDeterminesKind | backend/scripts/live_consistency_check.py:142 | An identity determines its event and kind when neither holds a bar, whatever the match is called |
| LiveHistory.TableEqualsHistory | backend/scripts/live_consistency_check.py:135-154 | After any calls the open problems are exactly those the last call saw, each first seen in the first call of its unbroken streak, and marked reported if and only if some call of the streak came after its grace |
| LiveHistory.ReportsAtFirstDueCall | backend/scripts/live_consistency_check.py:141-148 | A call reports a problem exactly once when it is the first of the streak after the grace, and not at all otherwise |
| LiveHistory.ResolvesReportedStreaks | backend/scripts/live_consistency_check.py:149-153 | A call resolves a problem if and only if it ends a streak that was reported, with the whole streak's length |
| LiveHistory.ResolvedLastedItsGrace | backend/scripts/live_consistency_check.py:146-153 | At given call times, whatever the calls see of a problem: it lasted its grace whenever it is resolved, if and only if the clock never slips back over that grace |
| LiveHistory.SteadyClockLasts | backend/scripts/live_consistency_check.py:135-154 | With a clock that never goes back every resolved problem lasted at least its grace |
| LiveHistory.SlipShortensStreak | backend/scripts/live_consistency_check.py:146-153 | For every slip back over a grace, the calls that see the problem from its start to just before the slip resolve it too early |
| LiveHistory.ReportsAndResolutionsAlternate | backend/scripts/live_consistency_check.py:135-154 | Over any calls a problem's reports and resolutions alternate, starting with a report; a report is outstanding if and only if the problem is open past its grace |
| Rounding.Round | backend/scripts/live_consistency_check.py:148-153 | Rounds to a nearest whole number, a half to the even one |
| Boxes.IouIsAFraction | backend/scripts/propose_missing_labels.py:72-77 | The overlap of any two boxes lies between 0 and 1 |
| Boxes.IouSymmetric | backend/scripts/propose_missing_labels.py:72-77 | The overlap does not depend on the order of the boxes |
| Boxes.CoverIsAFraction | backend/scripts/propose_missing_labels.py:187-191 | The covered fraction lies between 0 and 1 |
| Clusters.ClusterViews | backend/scripts/propose_missing_labels.py:80-116 | The loops compute the specified clustering of the views |
| Clusters.PlaceInFirst | backend/scripts/propose_missing_labels.py:88-98 | The inner loop puts a box into the first cluster whose seed it matches, or into one of its own |
| Clusters.MergeCluster | backend/scripts/propose_missing_labels.py:101-114 | The sums of the loop give the score-weighted average box, the mean score, the votes and the sorted scores |
| ClusterProofs.ClustersAreAGreedyPartition | backend/scripts/propose_missing_labels.py:84-98 | Every box is in exactly one cluster; each seed leads with the top score; other members match their seed and no earlier one; seeds are pairwise below the threshold |
| ClusterProofs.MergedWithinMembers | backend/scripts/propose_missing_labels.py:101-112 | Each merged coordinate lies within any bounds its members respect |
| ClusterProofs.MergedScoreWithinMembers | backend/scripts/propose_missing_labels.py:110 | The merged score lies within any bounds its members' scores respect |
| ClusterProofs.VotesCountViews | backend/scripts/propose_missing_labels.py:87-111 | A cluster's votes are its number of distinct views, at least one and at most all |
| ClusterOrder.OrderDoesNotMatter | backend/scripts/propose_missing_labels.py:80-116 | With distinct scores, permuting the views and the boxes inside each leaves the result list exactly the same |
| ClusterOrder.TiesDependOnOrder | backend/scripts/propose_missing_labels.py:84-98 | An example of a tie that changes the number of clusters: three boxes in a row give two or one, by the order of the views |
| ClusterTies.OrderMattersExactly | backend/scripts/propose_missing_labels.py:80-116 | For every table of scores and every threshold: all boxes with these scores give the same list in every order of the views and of the boxes inside each if and only if no two scores are equal or the threshold is at most 0 |
| ClusterTies.TieChangesList | backend/scripts/propose_missing_labels.py:85-116 | For every table of scores, threshold above 0 and pair of equal scores: boxes that do not touch come out in another order when the pair is swapped |
| ClusterOne.OneClusterInAnyOrder | backend/scripts/propose_missing_labels.py:88-116 | With a threshold of at most 0 any boxes give the same list in every order |
| Sorting.SortIsStable | backend/scripts/propose_missing_labels.py:85 | Sorting by a key, greatest first, keeps the order of what is not out of order, equal keys included |
| Persistence.TrackBoxes | backend/scripts/propose_missing_labels.py:373-382 | The loops compute the specified tracks of a camera view |
| Persistence.TracksPartition | backend/scripts/propose_missing_labels.py:373-382 | Every box of the frames is in exactly one track, once; a track's other boxes match its first and no earlier track's first |
| Persistence.Coverages | backend/scripts/propose_missing_labels.py:383-386 | The coverage table holds exactly the view's boxes, each with its own track's share of the frames |
| Persistence.CoverageInUnit | backend/scripts/propose_missing_labels.py:383-386 | A box's coverage is above 0 and at most 1, the number of distinct frames in its track over the number of frames |
| Proposals.ScreenFrame | backend/scripts/propose_missing_labels.py:315-341 | Pass 1's loop keeps the specified candidates of a frame with their motion and counts those on people |
| Proposals.ScreeningsCounted | backend/scripts/propose_missing_labels.py:328-341 | Every clustered box is kept, rejected as a person or dropped, exactly once |
| Proposals.CoverageOfCandidate | backend/scripts/propose_missing_labels.py:368-386 | Every kept candidate of every frame has a coverage above 0 and at most 1 |
| Proposals.CoverGroups | backend/scripts/propose_missing_labels.py:369-386 | Pass 2's loop over the camera views gives every view with a frame the coverages of exactly its candidates |
| Proposals.JudgeRow | backend/scripts/propose_missing_labels.py:394-409 | The last loop's proposals and its two reject counts are those the verdicts give |
| Proposals.ProcessSplit | backend/scripts/propose_missing_labels.py:300-469 | The whole of both passes and the last loop give the specified report and totals |
| Proposals.EveryCandidateCountedOnce | backend/scripts/propose_missing_labels.py:391-412 | Over all frames, candidates kept by pass 1 = proposed + rejected as persistent + rejected as static |
| Proposals.RowCountedOnce | backend/scripts/propose_missing_labels.py:394-412 | In each frame too, and the boxes proposed are as many as counted |
| Proposals.ProposedExactly | backend/scripts/propose_missing_labels.py:327-409 | A box is proposed for a frame if and only if enough views agree on it surely enough, it meets no label at the match IoU and no person's cover, it moves where motion is known, and its coverage is no veto |
| LabelText.LinesOfUnlines | backend/scripts/propose_missing_labels.py:492-494 | Joining lines with a final newline and splitting them gives the same lines |
| LabelText.PrintedIsRead | backend/scripts/propose_missing_labels.py:214 | A fraction printed with six decimals is read back as the same number of millionths |
| LabelFile.ReadLabelFile | backend/scripts/propose_missing_labels.py:206-224 | The loop reads a label file, line by line: short lines say nothing, a missing file is empty, a word that is no number refuses the file |
| LabelFile.InvalidLine | backend/scripts/propose_missing_labels.py:214 | One unreadable line refuses the whole file |
| LabelFile.PrintedBoxIsRead | backend/scripts/propose_missing_labels.py:206-235 | A box with its edges in order, printed and read back, is the box clipped to the image, each edge within 0.75 millionths of the image's width or height |
| LabelFile.CompleteFile | backend/scripts/propose_missing_labels.py:487-494 | The loop writes the source's non-blank lines and then one line per proposal |
| LabelFile.CompletedFileLines | backend/scripts/propose_missing_labels.py:487-494 | The written file's lines are exactly the source's non-blank lines, unchanged and in order, and then the proposals' lines |
| LabelFile.BlankLinesSayNothing | backend/scripts/propose_missing_labels.py:488 | Dropping blank lines changes nothing that is read |
| LabelFile.CompletedFileIsRead | backend/scripts/propose_missing_labels.py:487-494 | Reading the written file gives the source's boxes, unchanged and in order, and then each proposal within the printing bound |
| ProposalFiles.VotesOrdered | backend/scripts/propose_missing_labels.py:104-112 | Detections with their edges in order merge to boxes with their edges in order |
| ProposalFiles.ApplySplit | backend/scripts/propose_missing_labels.py:479-494 | The loop writes the specified label files |
| ProposalFiles.ByName | backend/scripts/propose_missing_labels.py:479 | Of several report rows for an image the last one counts |
| ProposalFiles.WrittenExactly | backend/scripts/propose_missing_labels.py:481-494 | A label file is written exactly for the stems of reported images, completed with the proposals of the last reported image with that stem |
| WrittenFiles.OwnFileExactly | backend/scripts/propose_missing_labels.py:479-494 | For pictures with different names: a picture's file is its own completion, whatever is proposed for the reported images, if and only if no later reported picture shares its stem |
| WrittenFiles.FramesOwnFile | backend/scripts/propose_missing_labels.py:300-494 | The file written for a frame's picture, unless a later reported one shares its stem, is the source's non-blank lines, unchanged and in order, and then exactly that frame's proposals; it reads back as the frame's labels and then its chosen boxes |
| ProposalFiles.FileReadsBack | backend/scripts/propose_missing_labels.py:414-494 | A frame's completion reads back as the frame's labels and then exactly its chosen boxes, each edge within half a hundredth of a pixel and 0.75 millionths of the image |
| SearchSync.Handshake.Render | ScoutingApp/src/hooks/useExternalSearchSync.ts:21-45 | In place: one commit runs the reader and then the writer on what was rendered |
| SearchSync.Handshake.Reader | ScoutingApp/src/hooks/useExternalSearchSync.ts:29-35 | In place: an outside URL is taken over once and holds the next write back |
| SearchSync.Handshake.Writer | ScoutingApp/src/pages/ComparePage.tsx:227-238 | In place: unless held back, a changed search string is marked and set |
| SearchSync.NeverWritesOverALink | ScoutingApp/src/hooks/useExternalSearchSync.ts:29-45 | In every run no write is made over a URL that was not taken over, and no write is held back beyond its commit |
| SearchSync.SettlesInThreeCommits | ScoutingApp/src/hooks/useExternalSearchSync.ts:29-45 | From any point of a run three commits without input settle the page in the applied state, with at most one write, made from that state |
| SearchSync.LinksAreFollowed | ScoutingApp/src/hooks/useExternalSearchSync.ts:29-45 | After every run a link is taken over, and the page settles in the state it gives, if and only if it leads away from the URL shown and is not the one held for the page's own; some link is missed that way if and only if the run lost step and did not regain it |
| SearchSync.MissesExactly | ScoutingApp/src/hooks/useExternalSearchSync.ts:31 | The only link missed is the URL held for the page's own, exactly while the page neither shows nor writes it |
| SearchSync.StepExactly | ScoutingApp/src/hooks/useExternalSearchSync.ts:29-45 | Step is lost exactly by a navigation elsewhere over the page's own write, and regained exactly by the missed link, by rendering an outside URL, or by a new write |
| SearchSync.MissedLinkDoesNothing | ScoutingApp/src/hooks/useExternalSearchSync.ts:31 | On any page that mirrors its URL: edit, go back before the write is rendered, undo the edit, and a link to the written URL does nothing |
| LogoLookup.Lookups.Limit | ScoutingApp/src/components/TeamAvatar.tsx:46-58 | In place: start below four running lookups, else wait |
| LogoLookup.Lookups.FetchLogo | ScoutingApp/src/components/TeamAvatar.tsx:60-82 | In place: the known answer, the lookup in flight, or a new lookup entered in the table |
| LogoLookup.Lookups.LookupAnswers | ScoutingApp/src/components/TeamAvatar.tsx:68-78 | In place: the answer, or none for a failure, is kept and the entry in flight deleted |
| LogoLookup.Lookups.LookupReleases | ScoutingApp/src/components/TeamAvatar.tsx:50-53 | In place: the slot is freed and the first waiting lookup started |
| LogoLookup.LimiterHolds | ScoutingApp/src/components/TeamAvatar.tsx:42-58 | In every run: at most four lookups run, one waits only while four do, submitted = finished + running + waiting, and those started are the first four and one more for each that finished, in order |
| LogoLookup.EachKeyOnce | ScoutingApp/src/components/TeamAvatar.tsx:60-82 | In every run no key is looked up twice, and a key is known or in flight if and only if it was asked for |
| LogoLookup.AnswersAreKept | ScoutingApp/src/components/TeamAvatar.tsx:61-63 | From any state a run reaches, an answer, also a failed one, is kept for good |
| ContextKeys.QuickPickStays | ScoutingApp/src/layout/useContextStrip.ts:31-54 | Normalising a key twice is normalising it once |
| ContextKeys.SameTeamExactly | ScoutingApp/src/layout/useContextStrip.ts:39-49 | A number and its written-out key give the same team key if and only if the number has no zeros in front |
| Recents.NormalizeQuickPickList | ScoutingApp/src/layout/useContextStrip.ts:56-72 | The loop gives the first `limit` distinct keys of the values, in order |
| Recents.PushKeepsLatest | ScoutingApp/src/layout/useContextStrip.ts:122-133 | Pushing a key onto the eight latest gives the eight latest of the longer history |
| Recents.RecentsAreTheLatest | ScoutingApp/src/layout/useContextStrip.ts:122-133 | After any run of opened events and teams, from any saved lists, each list is the eight most recently opened distinct keys, the latest first |
| Recents.RecentsRefineHistory | ScoutingApp/src/layout/useContextStrip.ts:39-133 | From whatever was stored, the same, and saving a list and reading it back gives the same list |

## Left out

- ApiClient.Client.ReadPersistentGetCache: does not model a corrupt entry, which the source removes; such an entry is as good as one that vanished.
- ApiClient.Client.WritePersistentGetCache: does not model the Cache Storage or IndexedDB copy of a large or refused body; their code is not part of this model, and such a save is as good as lost.
- ApiLive.FloorIsExact: for the same reason Cache Storage is not among the places an older copy can be left in.
- ApiLive.LiveReadsDoNotGoBack: for the same reason the saved-first and offline reads it covers find no copy in Cache Storage.
- ApiPending.CapturedCopiesAreYoung: for the same reason no saved copy shown first comes from Cache Storage.
- ApiClient.Client.SavedCopyWithin: for the same reason it does not look in Cache Storage when memory and localStorage have no copy young enough.
- ApiClient.Client.ResumeFetch: for the same reason a suspended read finds no copy in Cache Storage, only what memory and localStorage held as it paused.
- ApiClient.Client.OfflineStaleFallback: for the same reason it considers no newer Cache Storage copy.
- ApiClient.Client.LiveFetch: does not model the saved copies a live read itself shows offline, on a weak signal or after a failure (1822-1853 of `api.ts`); they change no cache.
- `prunePersistentCache` and `freeApiCacheSpace`: modelled only as entries that vanish, since removing while walking localStorage by index gives neither of the results their names suggest.
- `shouldBypassCache` and the URL rules: they choose which read is made, and the model lets any read be made.
- The weak-signal timer: its fallback may happen at any time while a request runs, not only after its delay.
- The offline audit: an audited GET skips the two cache lookups and saves its answer in localStorage itself; the model has no such read.
- Boot prefetch, workspace tokens and the queue of offline writes: they do not touch the cache's maps.
- `compare_event`: its observations are arbitrary inputs of `advance`.
- Model inference, image decoding, backgrounds, motion energy and people detection: arbitrary inputs of the proposer.
- Proposals.ProcessSplit: does not model suspect labels, motion statistics and the scores, votes and coverages printed in the report, which nothing depends on; the labels of a frame are an input, and that reading them can refuse a malformed file is stated at LabelFile.InvalidLine.
- ProposalFiles.ApplySplit: does not model the checks on held-out and overlapping directories and the copying of images.
- Floating-point rounding, infinities and NaN: geometry, scores and the monitor's times are reals; image sizes are positive.
- LabelText.ReadNumber: words other than digits, a point and digits are read by an arbitrary function, so nothing is said about exponents, signs or underscores.
- ContextKeys.QuickPickStays: `toLowerCase` is modelled for ASCII letters only.
- JSON parsing of the stored lists: a value that is no string stands as the string it converts to.
- What a page's writer effect also keeps in localStorage, and how a logo's key is put together from team and event.
- React's scheduling: an effect is one atomic step of a commit, and a commit renders the latest URL and state.
- Two lookups of one logo by different paths (with and without the event): the lookup of a key is one step here.
- The other pages, endpoints, ratings and training scripts: they add no state machine of their own.
