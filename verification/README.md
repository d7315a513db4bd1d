# Fluxion: verified models of the desktop app and its sub-agent runner

A Dafny model of the stateful core of Fluxion, with proofs over every input, every run and
every interleaving. One module stands for one component:

- `AgentPath`, `AgentSlug`, `AgentResolver`: the path language of nested sub-agent runs, its
  normaliser and slugifier, which slug a text gets, and the choice of an executor.
- `GrantStore`, `GrantSettlement`, `SubagentRunner`, `SubmissionRuns`: a task submitted under a
  workspace grant. `GrantStore` is the approval row and everything the access service does to it,
  including claiming a given-back approval again. `GrantSettlement` is a state machine over the
  submitting thread, any number of threads delivering a result, the row, and everyone else who
  may move it; every lock section, transaction and call that can raise is one step.
  `SubagentRunner` holds the objects themselves, method by method, and `SubmissionRuns` shows each
  of their outcomes to be a run of the machine.
- `QuotaWindows`, `QuotaClasses`, `QuotaPools`, `QuotaState`, `QuotaHeadline`, `QuotaOrder`,
  `QuotaWitness`: classification of quota windows, the fold into tagged pools, the card's mode, its
  headline number, locks, credits and attention rank, what the order of the windows can change about
  the mode, and two providers that show it.
- `Polling`, `PollingForces`, `UsageProbes`: the adaptive refresh monitor, what each of its ticks asks
  for and remembers, and the bookkeeping around the usage collector processes. The monitor's ticks use
  the real `QuotaState` model to find overdue resets.
- `EnvFile`, `EnvRoundTrip`, `EnvInit`, `EnvValues`: the two programs that write `.env`, the values
  they write, and what the desktop reads afterwards. `NotificationQueue`, `NotificationText`: the queue
  file claimed by a rename, as a protocol of single system calls and as text. `LineSplitter`: installer
  output.
- `TaskGroups`, `TaskOrder`, `TaskRows`, `DateMemo`: grouping the task list, the stable sort behind it,
  the rows it shows, and the bounded memo of parsed timestamps shared by concurrent callers.
- `PeekRows`, `PeekContents`, `PeekTrim`, `PeekCap`, `PeekWitness`: the callout's rows and what they
  show, trimming them, when that meets its cap, and a provider for which it does not.

`Text` and `Wrappers` hold what the others share. Percentages, intervals and instants are reals;
ISO 8601 parsing is an arbitrary pure partial function; strings are sequences of Unicode scalars,
and Foundation's and Python's classes of white space and line breaks are spelled out, since they
differ. A time, a file's content, the outcome of a call that may fail, and the order in which a
dictionary iterates are parameters, so the theorems hold for all of them.

## Where the code and its own description differ

The code is modelled as it is. Each of these is a theorem, with the condition that separates the
two behaviours wherever there is one.

- The notification producer's docstring says its lock serialises the append against the rename.
  The renaming side takes no lock: `ProducerLockDoesNotProtect` is a run without crash or failure
  that loses its record, and `NothingIsMissedIffWritesAreTimely` says exactly which runs lose one.
- The consumer splits at every Unicode newline, while the producer escapes only ASCII control
  characters: `ReadsWhatWasQueued` says exactly which queues survive, and
  `TornRecordIsReadAsTwo` is a record that does not.
- `submit` can raise for a task that was accepted, and then the grant is not given back
  (`ReadBackFailureRaisesWithoutAbort`). If the gateway raises after it has recorded the adapter,
  both abort and completion are attempted (`TornSubmissionAttemptsBoth`); the row is still
  settled once. A waiter that times out can see a result before its grant is completed
  (`ResultIsVisibleBeforeCompletion`).
- Automatic agent resolution looks at three candidates only, so it can pick an agent known to be
  missing while another is enabled and installed (`AutoCanPickAnUninstalledAgent`);
  `AutoAlwaysResolves` gives the exact condition.
- The windows a pool shows depend on the order of the windows exactly when there is a tie
  (`NoTiesNoOrder`, `TiesShowOrder`). Tags, remainders and which pools are blocked by which kind
  never do (`PoolsIgnoreWindowOrder`), but the mode can: `SwappingTiedWindowsChangesTheMode` turns
  a locked card into a recovering one, and `SplitModeOverOrders` and `SingleModeOverOrders` say from
  the raw windows exactly when it is the same in every order.
- "Recovering" is decided by the earliest pool, with the year 4001 standing for a missing reset;
  `SplitModeMeetsSpec` says exactly when that is not the documented mode, and
  `LockedAfterDistantFuture` gives such a provider.
- Saving `.env` rewrites a key's first assignment while loading obeys its last: `RoundTrip` gives
  the exact condition under which loading returns what was saved, `TwiceSetKeepsTheSecond` a file
  that breaks it, and `UndecodableFileIsOverwritten` the one case where every other line is lost.
- The trimmed callout meets its cap exactly when no dropped row shares an id with a kept one
  (`RowsKept`). `CapMetWhateverTheSort` tells from the rows alone when that holds for every order
  the sort may give ties, `RowIdsAreUnique` for which providers ids never repeat, and
  `RepeatedIdBreaksTheCap` is a provider whose callout has five rows.
- Python strips information separators that Foundation keeps, so initialisation can leave the
  desktop without a setting: `DesktopSeesSetting` says exactly when, and `InfoFileHidesTheSetting`
  is such a file.

## Model

| member | source | states |
|---|---|---|
| AgentPath.NormalizeSound | src/fluxion/subagent.py:795-805 | whatever the normaliser accepts spells a list of valid segments under `root`, and the input was exactly that path up to outer white space and trailing slashes |
| AgentPath.NormalizeComplete | src/fluxion/subagent.py:795-805 | conversely every such padded spelling is accepted and stripped of its padding: with the row above, the exact accepted language |
| AgentPath.PathIsNormal | src/fluxion/subagent.py:795-805 | normalised paths are fixed points |
| AgentPath.PathOfInjective | src/fluxion/subagent.py:795-805 | different segment lists never share a path |
| AgentPath.ValidateSegmentDecides | src/fluxion/subagent.py:808-818 | a segment passes iff it is a non-empty word of lower-case letters, digits and underscores, and not `root` unless that is allowed |
| AgentPath.SlugTextIsSlug | src/fluxion/subagent.py:785-792 | every text, also empty or all punctuation, slugs to a non-empty word with no leading, trailing or doubled underscore |
| AgentPath.SlugTextFixesSlugs | src/fluxion/subagent.py:785-792 | canonical slugs are left alone, so the slugs are exactly the fixed points |
| AgentPath.SlugTextIdempotent | src/fluxion/subagent.py:785-792 | slugifying twice is slugifying once |
| AgentPath.SlugTextIgnoresCase | src/fluxion/subagent.py:785-792 | letter case never changes a slug, also not that of the two characters outside ASCII whose lower-case form has ASCII letters |
| AgentSlug.SlugSpellsTheWords | src/fluxion/subagent.py:785-792 | a slug is the maximal runs of letters and digits of the lowered text, in order, joined by underscores, and `default` when there is none (`PartsOf`: every text has such runs) |
| AgentSlug.SlugKeepsWords | src/fluxion/subagent.py:785-792 | words in any case, set apart by any text without letters and digits, slug to the lower-case words joined by underscores |
| AgentSlug.SlugOfTwo | src/fluxion/subagent.py:785-792 | two slugs with any separator between them slug to both with one underscore between, so no separator is dropped |
| AgentPath.DeriveSegmentDecides | src/fluxion/subagent.py:785-792 | the one text ever refused is text whose slug is `root`; no other check can fire |
| AgentPath.RunExtendsParent | src/fluxion/subagent.py:770-782 | a nested run's path is its parent's with exactly one segment more |
| AgentSlug.TaskNameComesFirst | src/fluxion/subagent.py:770-782 | a task name that is not blank names the run and else the thread does; the path is the parent's, a slash and that text's slug |
| AgentPath.RunPathIsNormal | src/fluxion/subagent.py:770-782 | for any parent text, a returned path is a fixed point of the normaliser, and refusal has only two causes: the parent, or a slug `root` |
| AgentPath.NestingFromRoot | src/fluxion/subagent.py:770-782 | a chain of nested runs of any length gets the path its slugs spell, exactly when none of them is `root` |
| AgentResolver.AutoAlwaysResolves | src/fluxion/subagent.py:706-753 | an automatic pick never fails, is enabled, and is installed exactly when one of the preferred candidates is |
| AgentResolver.AutoPicksTheFirst | src/fluxion/subagent.py:706-736 | the pick is the first of project default, settings default and first enabled agent that is enabled and installed, or without such a one (or without detection) the first that is enabled |
| AgentResolver.EnabledAgentsAre | src/fluxion/subagent.py:715-720 | enabled are the listed agents that are supported, the first such first, or all three when none is |
| AgentResolver.NamesAreAliased | src/fluxion/subagent.py:64-70 | a name, however cased, dashed and padded, is taken for exactly what the alias table says, and otherwise for itself |
| AgentResolver.ExplicitPickDecided | src/fluxion/subagent.py:706-753 | an explicit pick is accepted exactly when enabled and not known to be missing, and is never replaced by another agent |
| AgentResolver.AutoCanPickAnUninstalledAgent | src/fluxion/subagent.py:706-753 | a request for which the automatic pick is known to be missing although another enabled agent is installed |
| AgentResolver.NormalizeAgentNameIdempotent | src/fluxion/subagent.py:701-703 | aliasing, dashing, lowering and stripping compose to an idempotent map |
| GrantStore.Store.Perform | src/fluxion/workspace/access.py:1345-1407 | bind, abort and complete transactions: the scan changes the rows as the recursive specification says and reports whether it acted |
| GrantStore.OnlyTheGrantMoves | src/fluxion/workspace/access.py:1345-1407 | no operation touches any row but the first one of its grant |
| GrantStore.RowsMoveOnlySo | src/fluxion/workspace/access.py:1223-1455 | the rest of the service makes a row active only by claiming an approval in time, and uses up, approves or allows one only in time, for a path that is not denied, and from the state before it |
| GrantStore.GrantEndsOnce | src/fluxion/workspace/access.py:1223-1407 | after an abort or a completion acted, whatever the service and other grants then do to the row, the grant never holds it again and changes it no more; a completed row stays closed, an aborted one never carries the grant again |
| GrantStore.AbortedRowIsClaimedAgain | src/fluxion/workspace/access.py:1296-1341 | the row itself is not final: a given-back approval can be claimed again, under a new grant |
| GrantSettlement.EveryRunSettlesOnce | src/fluxion/subagent.py:377-579 | over every interleaving and every failure: at most one abort, at most one completion attempt, the grant loses its row at most once; both attempts exactly for a torn submission whose first result got that far; done only after the stored result's completion attempt |
| GrantSettlement.StoredResultIsFinal | src/fluxion/subagent.py:271-285 | the first stored result never changes along a run and belongs to the one caller that completes the grant |
| GrantSettlement.HowSubmissionEnds | src/fluxion/subagent.py:395-532 | raising before acceptance means one abort and no delivery; acceptance means no abort; and unless a store operation raised or the grant lapsed, the row is no longer this grant's, closed with the first result, or still active for this task |
| GrantSettlement.GrantIsOverForGood | src/fluxion/workspace/access.py:1263-1407 | once a grant has lost its row, in no longer run does it hold the row again, does the reason change, or does an operation under it change anything, although others may claim the approval again |
| GrantSettlement.OthersMoveTheRow | src/fluxion/workspace/access.py:1223-1341 | at any moment of a run others move the row as they would any row, and the grant lapses exactly when that takes the row from it |
| GrantSettlement.RunKeepsInv | src/fluxion/subagent.py:377-579 | the invariant behind those results (one owner of the stored result, who aborts, what the row tells) holds along every run, and what a step settled no later step undoes |
| GrantSettlement.TornSubmissionAttemptsBoth | src/fluxion/core/engine.py:220-302 | a run in which the gateway raises late and both attempts are made, the row being settled once, by the abort |
| GrantSettlement.ReadBackFailureRaisesWithoutAbort | src/fluxion/subagent.py:533-579 | a run in which `submit` raises after acceptance and the grant stays with the task |
| GrantSettlement.ResultIsVisibleBeforeCompletion | src/fluxion/subagent.py:297-299 | a run in which the result is readable before the completion attempt |
| SubagentRunner.LocalChannelAdapter.SendResult | src/fluxion/subagent.py:271-285 | first result wins and is completed against the store even when that raises; a later one changes nothing at all |
| SubagentRunner.LocalChannelAdapter.SendOutputDelta | src/fluxion/subagent.py:290-305 | the joined text a reader of the tail sees grows by exactly the delta, and no empty delta is stored |
| SubagentRunner.Runner.Submit | src/fluxion/subagent.py:377-579 | for every combination of failing calls: which error class is raised, whether the adapter is registered, and the exact store rows afterwards |
| SubmissionRuns.SubmitIsARun | src/fluxion/subagent.py:395-579 | every outcome of `Submit` under a grant is a run of the machine that ends in the matching state and leaves in the grant's row what the store holds |
| SubmissionRuns.SubmitWithoutGrantIsARun | src/fluxion/subagent.py:395-579 | the same without a grant, where no row is touched |
| SubmissionRuns.SendResultIsARun | src/fluxion/subagent.py:271-285 | a delivery by the adapter is the machine's run of one delivering thread, for the first result and for a dropped one |
| QuotaWindows.LeastIsMinimum | desktop/UI/Notch/NotchQuotaPresenter.swift:165-185 | the running selection yields a member that no other member undercuts |
| QuotaWindows.SnapshotsMembers | desktop/UI/Notch/NotchQuotaPresenter.swift:142-185 | the snapshots are those of exactly the windows that count, none lost and none invented |
| QuotaWindows.ScopedNeverCount | desktop/main.swift:73-75 | removing the scoped windows changes no snapshot list of any kind or tag |
| QuotaClasses.KindIsDecided | desktop/UI/Notch/NotchWindow.swift:122-141 | a window's kind from the places where key or label names it in any case (also across the space that joins them), else from its length, up to twelve hours or more; a scoped one has none |
| QuotaClasses.TagIsDecided | desktop/UI/Notch/NotchWindow.swift:143-152 | its pool in the same way, external names before Gemini |
| QuotaClasses.DueIsDecided | desktop/UI/QuotaFormatter.swift:225-240 | a card stops waiting for a window iff the reset it reports has passed and its clock had started: not still a full length, within 15 s, after it was fetched |
| QuotaPools.TaggedPools | desktop/UI/Notch/NotchQuotaPresenter.swift:238-262 | the dictionary-filling loop yields the declarative pools, whatever order the dictionary iterates in |
| QuotaPools.PoolSideIsMinimum | desktop/UI/Notch/NotchQuotaPresenter.swift:238-262 | a side exists iff some window has its tag and kind, and is then such a window with the minimum remaining quota |
| QuotaPools.PoolsIgnoreWindowOrder | desktop/UI/Notch/NotchQuotaPresenter.swift:106-122 | tags, remainders and which pools are blocked by which kind survive any reordering or repetition of the windows |
| QuotaPools.NoTiesNoOrder | desktop/UI/Notch/NotchQuotaPresenter.swift:238-262 | without a tie even the identity of the shown window is order-independent |
| QuotaPools.TiesShowOrder | desktop/UI/Notch/NotchQuotaPresenter.swift:238-262 | with a tie two permutations show different windows, so the condition above is exact |
| QuotaState.FindBinding | desktop/UI/Notch/NotchQuotaPresenter.swift:416-430 | the nested loop finds the first least-remaining window over pools and kinds |
| QuotaState.SplitModeMeetsSpec | desktop/UI/Notch/NotchQuotaPresenter.swift:393-445 | the split card's mode equals the documented one for the windows the pools picked, except in one exactly described case that cannot occur before the year 4001 |
| QuotaWitness.LockedAfterDistantFuture | desktop/UI/Notch/NotchQuotaPresenter.swift:393-445 | a provider in that case, from its raw windows: the card says locked, the documentation recovering |
| QuotaHeadline.SplitHeadline | desktop/UI/Notch/NotchQuotaPresenter.swift:416-445 | a healthy split card headlines a positive number, the least percentage left over every window of the unspent pools, and of several with as much left names the first: GEM before EXT, five-hour before weekly |
| QuotaHeadline.SplitLocks | desktop/UI/Notch/NotchQuotaPresenter.swift:393-445 | each lock shows a least window of the kind it waits for, and a card that is not healthy counts down to the lock that ends first |
| QuotaState.LocksNameSpentPools | desktop/UI/Notch/NotchQuotaPresenter.swift:399-403 | the lock list names exactly the spent pools, GEM first, weekly iff a weekly window is spent |
| QuotaState.ActiveWindowIsMinimum | desktop/UI/Notch/NotchQuotaPresenter.swift:165-185 | the active window exists iff a window of the kind counts and is one with least remaining quota, across tags |
| QuotaState.SinglePoolVerdict | desktop/UI/Notch/NotchQuotaPresenter.swift:264-385 | the provider's own verdict decides, else a spent unscoped window; blocked means credits iff there is a usable balance, else recovering iff the first least window of the kind waited for (weekly when spent or, with nothing spent, when tighter) has an anchored reset that has passed |
| QuotaHeadline.SingleHeadline | desktop/UI/Notch/NotchQuotaPresenter.swift:264-295 | the single-pool card's number is 100 without a window that counts, else the percentage left of one that has no more left than any other of either kind; the kind is weekly iff a weekly window has less than every five-hour one |
| QuotaHeadline.SingleLock | desktop/UI/Notch/NotchQuotaPresenter.swift:296-385 | the window a blocked single-pool card waits for is a least one of the kind it says, weekly when that is spent or, with nothing spent, tighter; a healthy card waits for none |
| QuotaHeadline.CreditsDecided | desktop/UI/Notch/NotchQuotaPresenter.swift:213-226 | the balance is that of the first credits window, and keeps a card running iff positive and, for Claude, enabled |
| QuotaOrder.SplitModeOverOrders | desktop/UI/Notch/NotchQuotaPresenter.swift:238-445 | both pools spent, no credits: recovering in every order of the windows iff some tag's least blocking windows are all due, locked in every order iff no tag has a due one, and both in turn otherwise |
| QuotaOrder.SingleModeOverOrders | desktop/UI/Notch/NotchQuotaPresenter.swift:165-385 | the same for a blocked single-pool card and the least windows of the kind it waits for |
| QuotaWitness.SwappingTiedWindowsChangesTheMode | desktop/UI/Notch/NotchQuotaPresenter.swift:238-445 | a provider for which swapping two tied windows keeps every tag, remainder and block and turns locked into recovering |
| QuotaState.ScopedWindowsDoNotInterfere | desktop/UI/Notch/NotchQuotaPresenter.swift:173-385 | card and attention rank are unchanged when all scoped windows are removed, on both paths |
| QuotaHeadline.HealthyRank | desktop/UI/Notch/NotchQuotaPresenter.swift:584-604 | a healthy provider ranks by the least percentage left of the windows its card draws from, so of two the one with less left comes first |
| QuotaHeadline.BlockedOutranksHealthy | desktop/UI/Notch/NotchQuotaPresenter.swift:584-604 | broken providers come first, then locked and recovering ones alike, then those that run on credits, then healthy ones, and loading ones last |
| Polling.HasUsageChanged | desktop/AppDelegate/AppDelegate+Polling.swift:260-277 | changed iff some provider or window differs in a compared field, or in number or order |
| Polling.RefreshMonitor.AdjustIntervalBasedOnDataChange | desktop/AppDelegate/AppDelegate+Polling.swift:278-305 | unreadable cache: nothing; first cache or news: 60 s; no news: backed off by half, under the cap |
| Polling.RefreshMonitor.MarkActivity | desktop/AppDelegate/AppDelegate+Polling.swift:116-165 | file and focus activity force exactly the active sides and remember every time seen |
| Polling.RefreshMonitor.MarkRecovering | desktop/AppDelegate/AppDelegate+Polling.swift:166-183 | every cached provider with an overdue reset, and no other, is forced |
| Polling.RefreshMonitor.ProcessMonitorTick | desktop/AppDelegate/AppDelegate+Polling.swift:109-208 | one tick is the specified transition, and starts at most the specified refresh |
| Polling.RefreshMonitor.SetScreenActive | desktop/AppDelegate/AppDelegate+Polling.swift:43-61 | a wake refreshes unforced, resets interval and pending flag and keeps the forced set; sleep and repeats change nothing else |
| PollingForces.TickForcesWhatItAsks | desktop/AppDelegate/AppDelegate+Polling.swift:116-207 | in every reachable state a tick hands over, or keeps waiting, exactly who waited and who it asks for: Claude on focus or a later time of any of its three files, Codex on a later time of its own, and whoever is overdue |
| PollingForces.TickRefreshesInTime | desktop/AppDelegate/AppDelegate+Polling.swift:184-207 | it refreshes iff 60 s have passed when anyone is asked for or waits, else iff the current interval, 60 to 600 s, has |
| PollingForces.TickRemembers | desktop/AppDelegate/AppDelegate+Polling.swift:109-305 | every other field after a tick, from the fields before: times, cache, stamp, pending flag, and the interval, 60 s after news and else grown by half up to 600 s |
| PollingForces.ScreenRestartsTheClock | desktop/AppDelegate/AppDelegate+Polling.swift:43-61 | sleep changes the flag alone, a wake starts afresh with the forced providers kept, and a repeat changes nothing |
| PollingForces.SameUsageIsSameReadings | desktop/AppDelegate/AppDelegate+Polling.swift:260-277 | two cached lists count as unchanged iff the readings compared are equal, list by list |
| Polling.ThrottleIsOneTest | desktop/AppDelegate/AppDelegate+Polling.swift:184-198 | in every reachable state anything waiting pins the interval to 60 s, so the two-branch decision is one comparison with the current interval, which stays between 60 and 600 |
| Polling.ForcedProvidersAreConserved | desktop/AppDelegate/AppDelegate+Polling.swift:150-207 | over ticks, sleeps and wakes a forced provider waits until the first tick-driven refresh, which carries it |
| Polling.ForcedProvidersGoOutInTime | desktop/AppDelegate/AppDelegate+Polling.swift:184-207 | a tick 60 s or more after the last recorded refresh hands over everything waiting or newly found |
| Polling.RefreshesAreSpaced | desktop/AppDelegate/AppDelegate+Polling.swift:184-207 | no tick-driven refresh comes less than 60 s after the latest tick- or wake-driven one of the run |
| Polling.BackOffLaw | desktop/AppDelegate/AppDelegate+Polling.swift:278-305 | after k refreshes without news the interval is min(600, 60 * 1.5^k), however many ticks went by |
| UsageProbes.ProbeCounter.RunUsageProbe | desktop/main.swift:774-825 | counter bookkeeping of a launch that is missing its binary, runs, or fails to run |
| UsageProbes.ProbeCounter.RefreshCodexQuotaForPanelIfNeeded | desktop/main.swift:749-763 | an unneeded request does nothing, one during a probe is deferred, any other launches |
| UsageProbes.ProbeCounter.OpenExpandedPanel | desktop/UI/Notch/NotchWindowController.swift:1925-1931 | opening the panel counts as one opening and asks once |
| UsageProbes.ProbeCounter.TerminationHandler | desktop/main.swift:797-813 | the handler of an exit, whenever it runs, counts down and replays a deferred request when it was the last one |
| UsageProbes.StepKeepsInv | desktop/main.swift:774-825 | the clamp at zero never fires, and a panel refresh starts only when no process runs and no other handler waits |
| UsageProbes.RunsFromIdleAreCounted | desktop/main.swift:749-825 | in every run the counter is the number of running processes plus the exits not yet handled, a deferred request has one of these to wait for, and panel refreshes plus the deferred one never exceed panel openings |
| UsageProbes.OpeningIsDecided | desktop/main.swift:749-763 | in every run, whether an opening starts a Codex refresh, defers it or does nothing |
| UsageProbes.ReplayIsDecided | desktop/main.swift:797-813 | in every run, the last exit handler and no other takes up what was deferred, and starts it iff it is still needed |
| LineSplitter.OutputReader.Receive | desktop/AppDelegate/AppDelegate+Repository.swift:161-192 | one chunk keeps reported lines and pending text functions of the text so far alone |
| LineSplitter.ReadAll | desktop/AppDelegate/AppDelegate+Repository.swift:161-192 | however the output is cut into chunks, the reports are the trimmed non-empty complete lines of the whole, and the rest waits |
| LineSplitter.ChunkExtends | desktop/AppDelegate/AppDelegate+Repository.swift:172-188 | splitting the waiting text plus a chunk continues the splitting of everything before |
| LineSplitter.LinesRebuildTheText | desktop/AppDelegate/AppDelegate+Repository.swift:172-188 | complete lines and pending text rejoin to the input, and no newline waits |
| LineSplitter.ReportedLines | desktop/AppDelegate/AppDelegate+Repository.swift:172-188 | reported are exactly the lines that are not blank, in order, each without its outer blanks |
| DateMemo.SharedDateFormatters.ParseISO | desktop/UI/QuotaFormatter.swift:46-77 | returns the pure parse; a hit, also a remembered failure, leaves the table alone; the cap is kept |
| DateMemo.EveryCallerGetsThePureParse | desktop/UI/QuotaFormatter.swift:46-77 | under every interleaving of look-up, unlocked parse and insert by any number of callers, all returned and cached values are the pure parse and the table never exceeds 512 entries |
| DateMemo.ACallReturns | desktop/UI/QuotaFormatter.swift:46-77 | at any moment a further caller can come and return in its own steps, after which its text is remembered; only a full table is emptied for it |
| PeekTrim.TrimmingKeepsTheMostUrgent | desktop/UI/Notch/NotchIslandView+Peek.swift:355-373 | with distinct ids exactly the cap remains, as a subsequence, nothing dropped was more urgent than anything kept, and no section is empty, for any order the sort gives ties |
| PeekRows.CalloutKeepsTheMostUrgent | desktop/UI/Notch/NotchIslandView+Peek.swift:355-373 | for a provider's own rows, by remaining quota: four rows stay, a row without a limit goes first, then those with the most left, and a spent one is never dropped for one that is not |
| PeekTrim.RowsKept | desktop/UI/Notch/NotchIslandView+Peek.swift:355-373 | without that assumption: the exact number kept, and that it is the cap iff no dropped row shares an id with a kept one |
| PeekCap.CapMetWhateverTheSort | desktop/UI/Notch/NotchIslandView+Peek.swift:355-373 | from the rows alone: every order the sort may give ties meets the cap iff no two rows of one id can fall on either side of it |
| PeekRows.BuildSections | desktop/UI/Notch/NotchIslandView+Peek.swift:274-352 | the row-appending builder yields the specified sections, for split and single providers |
| PeekContents.SingleCallout | desktop/UI/Notch/NotchIslandView+Peek.swift:311-345 | the rows of a provider without two pools: a least five-hour window (or, for Codex whose windows speak of a week and none of five hours, that it is not limited), a least weekly one, and every scoped window in order |
| PeekContents.SplitCallout | desktop/UI/Notch/NotchIslandView+Peek.swift:280-310 | the rows of one with two pools: GEM before EXT, a least five-hour window before a least weekly one |
| PeekRows.RowIdsAreUnique | desktop/UI/Notch/NotchIslandView+Peek.swift:274-352 | row ids are unique iff the provider has two pools or its scoped windows all have keys of their own |
| PeekWitness.RepeatedIdBreaksTheCap | src/fluxion/usage/probes/claude.py:554-563 | a provider, from its raw windows, whose callout keeps five rows: two model labels without ASCII letters or digits share a key |
| PeekTrim.SplitPoolsAreNeverTrimmed | desktop/UI/Notch/NotchWindowController.swift:193-196 | the cap fits every split-pool provider |
| TaskGroups.CompareIsTotalPreorder | web/src/App.tsx:75-87 | the two-tier comparator is total and transitive, so sorting by it is meaningful |
| TaskRows.RowsComeInOrder | web/src/App.tsx:65-120 | in every group, and among the groups' first rows: no inactive task before an active one; active ones running, retrying, queued, validated, received; and otherwise never an earlier time (ended, else started, else queued, else received) before a later one |
| TaskRows.GroupsSummarize | web/src/App.tsx:89-120 | every group's key is that of its tasks and its own; status and latest time are its first task's; executors are its tasks' without repeats in first-met order; additions, deletions and the number running or retrying are its tasks' |
| TaskOrder.SortIsTheStableSort | web/src/App.tsx:89-120 | the sort's result is the only list that is ascending and keeps equally ranked tasks in input order, hence what any stable sort returns |
| TaskGroups.GroupTasksByConversation | web/src/App.tsx:89-120 | the map-filling method computes the specified groups |
| TaskGroups.GroupingIsASortedPartition | web/src/App.tsx:89-120 | flattening permutes the tasks, keys are distinct, groups and heads are sorted, each group holds exactly its key's tasks, and additions, deletions and live counts are conserved |
| TaskGroups.FirstHeadIsMinimal | web/src/App.tsx:89-120 | the first row of the first group is minimal among all tasks |
| EnvFile.EnvStore.LoadEnv | desktop/main.swift:522-542 | the line loop yields the map in which the last assignment of a key wins; a missing or undecodable file is an empty map |
| EnvFile.EnvStore.SaveEnv | desktop/main.swift:544-572 | the written text is the rewritten lines plus the untaken updates in some dictionary order; a failed write leaves the file; either way the settings are reloaded from it |
| EnvRoundTrip.AssignmentReads | desktop/main.swift:522-542 | a written assignment of a clean key and value is read back as that key and value |
| EnvRoundTrip.QuotedAssignmentReads | desktop/main.swift:522-542 | blanks around key and value and quotes around the value belong to neither |
| EnvRoundTrip.SavedLookup | desktop/main.swift:544-572 | for every key of every file: the update if the file assigned it at most once, else what it loaded before |
| EnvRoundTrip.RoundTrip | desktop/main.swift:544-572 | loading after saving gives the old map overridden by the updates iff each updated key was assigned at most once or already had its value |
| EnvRoundTrip.TwiceSetKeepsTheSecond | desktop/main.swift:544-572 | a file with a repeated key for which saving a third value does not change what is loaded |
| EnvRoundTrip.UndecodableFileIsOverwritten | desktop/main.swift:549-570 | after saving over a file that does not decode, the updates are the only lines and all there is to load |
| EnvRoundTrip.LinesAreKept | desktop/main.swift:550-566 | lines keep their places, and every line that does not take an update keeps its text |
| EnvRoundTrip.SavingTwiceIsSavingOnce | desktop/main.swift:544-572 | saving again writes the same text, even with repeated keys and whatever order dictionaries iterate in |
| EnvInit.EnvInitializer.InitializeEnv | src/fluxion/availability.py:139-164 | returns the missing settings and rewrites the file only if there are any |
| EnvValues.MissingSettingsAreAdded | src/fluxion/availability.py:110-158 | the lines added: for each setting the file lacks, in order, the providers whose probe succeeded; the available executors, or all three when none is; the first available of codex, claude and antigravity, or codex |
| EnvValues.LinesAfterwards | src/fluxion/availability.py:157-163 | what the file then holds: its lines, a blank one if the last was not blank, the comment and the lines added |
| EnvValues.MissingSettingIsLoaded | desktop/main.swift:522-542 | for every file that lacks a setting, that value is what the desktop then loads |
| EnvInit.ExistingLinesArePrefix | src/fluxion/availability.py:139-164 | every existing line survives in place before what is added |
| EnvInit.AllKeysExist | src/fluxion/availability.py:139-164 | after a run all three settings exist for the Python side |
| EnvInit.SecondRunAddsNothing | src/fluxion/availability.py:139-164 | a second run leaves the file alone, whatever it detects |
| EnvInit.CommonLineAgrees | src/fluxion/availability.py:141-145 | on text where both programs agree about white space, an assignment for one is an assignment of the same key for the other |
| EnvInit.DesktopSeesSetting | desktop/main.swift:522-542 | exactly when the desktop sees a setting after initialisation, for every file on disk, whatever its line ends |
| EnvInit.DesktopSeesAllSettings | desktop/main.swift:522-542 | it sees all three for every file without information separators and zero-width spaces |
| EnvInit.InfoSeparatorHidesTheKey | src/fluxion/availability.py:141-145 | a line the two programs read differently |
| EnvInit.InfoFileHidesTheSetting | src/fluxion/availability.py:139-164 | a file that holds that line: whatever is detected, the desktop misses the setting after initialisation |
| NotificationQueue.EveryRecordIsInOnePlace | desktop/main.swift:1268-1296 | whatever crashes, fails or interleaves, a written record is in exactly one of: handled, memory, claimed file, queue, lost |
| NotificationQueue.HandledAtMostOnce | desktop/main.swift:1268-1348 | no record is handled twice in any run |
| NotificationQueue.ACycleHandlesTheQueue | desktop/main.swift:1268-1348 | from every reachable idle state with a queue a cycle without fault is possible, and it ends idle, no file left, with every queued record handled in order |
| NotificationQueue.CrashesLoseOnlyClaimedRecords | desktop/main.swift:1262-1296 | if no producer holds the file open at a claim, then through crashes and failed reads records are handled in order, the queue holds exactly what was written since the last claim, and only claimed records can be lost |
| NotificationQueue.EveryLossHasACause | desktop/main.swift:1268-1348 | with no restriction on the run: a record is still queued iff it was never in a claimed file to be read and was not written too late for one, so every lost record was claimed or late |
| NotificationQueue.NothingIsLostWithoutFaults | desktop/main.swift:1262-1296 | without faults the records written are the handled, claimed and queued ones, in this order, at every step |
| NotificationQueue.NothingIsMissedIffWritesAreTimely | src/fluxion/utils/macos_notify.py:34-70 | with open and write as two steps, a run without faults misses nothing iff every write finds its file not yet read |
| NotificationQueue.ProducerLockDoesNotProtect | src/fluxion/utils/macos_notify.py:39-42 | a run without faults that loses its only record |
| NotificationText.NotificationConsumer.Queue | src/fluxion/utils/macos_notify.py:53-67 | a file that holds the text of some records afterwards holds the text of those and the new one, so any series of appends leaves the text the results below speak of |
| NotificationText.OnlyFalseSwitchesOff | desktop/main.swift:1269-1271 | a missing setting leaves refreshing on; only `false`, in any case, switches it off |
| NotificationText.NotificationConsumer.CheckAndDeliverPendingNotifications | desktop/main.swift:1268-1348 | one cycle's deliveries, skipped lines and files, for every outcome of its file operations |
| NotificationText.DecodeLines | desktop/main.swift:1298-1306 | the loop keeps the order of well-formed lines and sets the malformed ones apart |
| NotificationText.RecordsNeverMix | desktop/main.swift:1298-1301 | however broken, records are read one by one: no line mixes text of two |
| NotificationText.RecordReadsAsItself | desktop/main.swift:1298-1301 | a record is read whole iff it holds no Unicode newline |
| NotificationText.ReadsWhatWasQueued | src/fluxion/utils/macos_notify.py:62-63 | the reader gets back the queued records iff none of them holds a Unicode newline |
| NotificationText.TornRecordIsReadAsTwo | src/fluxion/utils/macos_notify.py:53-63 | a whole record of the producer (title, body, timestamp) with a line separator in its title, read as two lines |
| NotificationText.BrokenRecordIsNeverSeenWhole | desktop/main.swift:1298-1301 | a record with such a newline never reaches the decoder whole, whatever else is queued |

## Left out

- EnvInit.EnvInitializer.InitializeEnv: a file that does not decode makes the Python side raise; only readable and missing files are modelled.
- EnvRoundTrip.RoundTrip: for keys and values that the loader's trimming leaves alone; others are not read back by design of the format. Foundation's documentation and some of its versions differ on whether U+200B is white space; the model takes it for none, and these results exclude it.
- EnvFile.EnvStore.SaveEnv: restarting services afterwards is not modelled.
- LineSplitter.ReadAll: the source never reports an unterminated last line, and skips a chunk that does not decode; both are kept as they are, bytes inside a chunk are not modelled.
- NotificationQueue.HandledAtMostOnce: one desktop process; a record is one write, so a partial write is not modelled.
- NotificationText.NotificationConsumer.CheckAndDeliverPendingNotifications: JSON decoding is an arbitrary partial map; how a note's fields become a title, body and category is left out.
- SubagentRunner.Runner.Submit: validation before authorization, metadata and `BaseException`s other than `Exception`.
- GrantStore.GrantEndsOnce: paths, modes, clients and clock readings of a row are flags of the steps; grant ids are taken to be issued once.
- TaskGroups.GroupTasksByConversation: the groups are sorted by their heads with the same insertion as the tasks, whose result is proved to be that of any stable sort; `localeCompare` is any total preorder.
- PeekTrim.TrimmingKeepsTheMostUrgent: the library's sort is any ascending rearrangement; labels and colours are left out.
- Swift's grapheme clusters and Unicode case folding: strings are Unicode scalars, and outside the slugifier lowering is ASCII.
- `compact_tail`, `recent_output_tail`, `task_text`, payloads and launch-target resolution: plain string building.
- Localised texts (`lockReason`, `note`), drawing, windows, process and network I/O, the cache watcher and the notification watcher's re-arm.
- The gateway, the executor and the authorization decision itself: only what a submission sees of them.
