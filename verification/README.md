# A verified model of the datacenter manager's stateful protocols

Proxmox Datacenter Manager talks to many PVE and PBS remotes at once. This project models the parts of
it that keep state across many steps, requests or tasks, and proves what they promise for every input,
every interleaving and every pattern of failures:

- **The failover client.** All requests to a remote share one counter that rotates through its nodes.
  `MultiClient` holds the shared state and one request's generator of clients, `WalkRuns` what one
  generator hands out under arbitrary interference, `FailoverRuns` any number of requests in any
  interleaving, and `RetryLoop` the loop that decides when a request is sent again. The counter is a
  64-bit machine number that wraps; where a statement holds only without a wrap, the condition is exact.
- **The parallel fetcher.** `Fetcher` is a state machine over the steps of its tasks, with the global and
  the per-remote semaphore; `FetcherResponse` collects, sorts and looks up the responses.
- **Unified backup jobs.** `BackupJobs` and `BackupPlan` resolve a job's guest selection into a plan per
  remote, `BackupMigration` rewrites entries of guests that moved, `JobPayload` builds and compares the
  job on a remote, `RemoteEncoding` says how a remote may report what it stores, `JobComparison` when that
  counts as in sync, `JobSync` materializes jobs and reports on them, `SyncOutcomes` says what that leaves
  and reports, and `Reconcile` does so for every configured job.
- **SDN changes across remotes.** `SdnClient` locks all remotes, runs on all, and applies or rolls back.
- **Placeholders for guests being created.** `PendingGuests` is a list that poll chains and removal timers
  change in whatever order they fire; `PendingSteps` says what each operation does and how a placeholder got
  its state.
- **The namespaced cache and the update cache on top of it**, `NamespacedCache` and `RemoteUpdates`, and
  the text form of remote task ids, `RemoteUpid`.

`Wrappers`, `Machine`, `Remotes`, `Arithmetic`, `Sequences`, `Ordering` and `Text` hold general definitions and
facts.

What the outside world answers (reachability, the resource cache, remote calls, clocks, the order in which
tasks complete) is a parameter, chosen freely at every step. `dafny verify dfyconfig.toml` checks the
whole project.

## Where the code does less than it says

Some statements one would expect are false of the code. Each has a lemma that states exactly when it holds,
and another one that exhibits inputs for which it does not:

- The comment at `server/src/sdn_client.rs:363-365` promises an error if applying or reloading failed on a
  remote. A failed apply never sets the error flag, and neither does a failed reload whose task id cannot be
  read (`SdnClient.ErrorMissesFailedApplies`; `FailedApplyUnreported`, `UnreadableIdUnreported`).
- The comment at `server/src/sdn_client.rs:188` says that all remotes are unlocked when locking fails; the
  early return for a name that is not configured keeps every lock taken so far
  (`SdnClient.FailedLockingUndone`; `UnknownNameKeepsLock`).
- A request that is not idempotent is sent again after a timeout, although it may have reached a server
  (`RetryLoop.NotIdempotentResentOnlyAfterConnectError`; `TimeoutRepeatsNotIdempotent`).
- `build_plan` follows a guest if the cache has one *guest* with its vmid, `follow_migrated_guests` if it
  has one *remote* for it; with two cached guests on one remote the rewrite changes the plan
  (`BackupMigration.FollowKeepsPlans`; `CachedTwiceMovesPlan`).
- An option that was unset in a job stays set on the remotes, and the job still counts as in sync
  (`RemoteEncoding.UpdateIsCreateExactlyWithoutLeftovers`; `UnsetOptionStays`).
- A sync skips planned guests on a remote that is no longer configured without a word; the status reports
  them as errors (`JobSync.SyncThenStatus`; `GoneRemoteIsError`).
- A timer or a poll chain of an earlier placeholder acts on a new placeholder of the same guest
  (`PendingGuests.StandsForItsOwnTask`; `LeftoverTimerBreaks`, `LeftoverChainBreaks`, `ReaddedIsRemoved`).
- A remote replaced by one of another type under the same name keeps the old type in the update cache, also
  if only a late writer still has it with that type (`RemoteUpdates.RefreshDependsOnResponse`;
  `StaleTypeSurvives`, `LateWriterDecides`).
- `%` is not continuous where the counter wraps, so a generator may hand out an entry twice there
  (`WalkRuns.EachEntryOnce`; `WrapHandsOutTwice`).
- A generator that the counter laps by 2^64 moves hands out positions again
  (`WalkRuns.OncePerPositionExactlyUnlapped`; `LappedHandsOutTwice`).
- An age check with a clock before the epoch may wrap (`NamespacedCache.FreshExactly`; `WrappedLooksFresh`).

## Model

| member | source | states |
|---|---|---|
| `MultiClient.MultiClientState.constructor` | server/src/connection.rs:546-554 | a new client stands on the first host not reported unreachable, looking at each host at most once |
| `MultiClient.MultiClientState.Next` | server/src/connection.rs:557-559 | the shared counter advances by one and wraps at 2^64 |
| `MultiClient.MultiClientState.SkipUnreachable` | server/src/connection.rs:562-577 | from any starting position the loop passes only hosts reported unreachable and stops at the first that is not, or after one round |
| `MultiClient.SkipLands` | server/src/connection.rs:562-577 | everything skipped was reported unreachable, and the position landed on was not, unless every host was |
| `MultiClient.TryClients.constructor` | server/src/connection.rs:673-680 | a generator starts without a position and touches nothing |
| `MultiClient.TryClients.NextClient` | server/src/connection.rs:673-734 | one turn does what is asked of it, whatever the other requests did to the counter: a request that stands on the counter moves it to the next host not reported unreachable, a counter that others moved stays; the host there is handed out with its label and everything in between remembered in order; past n positions the remembered ones are handed out in order as unreachable, and then the generator ends |
| `MultiClient.AskMeans` | server/src/connection.rs:673-734 | the same of every turn of every walk, stated over positions and hosts alone |
| `MultiClient.AvoidsUnreachable` | server/src/connection.rs:700-732 | a first-phase request that moves the counter is handed a host not reported unreachable, unless all n positions after the counter are |
| `MultiClient.TryClients.RememberSkipped` | server/src/connection.rs:717-727 | exactly the positions strictly between the last candidate and the new one are remembered, in order |
| `MultiClient.TryClients.NextLeftover` | server/src/connection.rs:685-689 | the second phase hands out the remembered positions in order, labelled unreachable, and then ends for good |
| `MultiClient.AskInRange` | server/src/connection.rs:673-734 | every position a generator holds or hands out is a 64-bit number |
| `WalkRuns.SkipAdvances` | server/src/connection.rs:562-577 | skipping moves the counter forward by at most the number of hosts, also across the wrap |
| `WalkRuns.AskKeepsConsistent` | server/src/connection.rs:673-734 | from any state in which what was handed out and what is remembered are together exactly the window from the first position to the latest first-phase one, a turn leaves such a state if and only if the counter is not behind the latest candidate; then first-phase candidates move strictly on inside [start, start + n); the only turn without a candidate is the last |
| `WalkRuns.EachPositionOnce` | server/src/connection.rs:609-619 | under any interference that does not lap it a generator hands out no position twice across both phases, only positions among the n from its first, at most n of them, and ends by turn n + 1 with the whole window handed out |
| `WalkRuns.OncePerPositionExactlyUnlapped` | server/src/connection.rs:673-734 | over all turns: no position is handed out or left to be handed out twice if and only if no turn laps the generator, and so, once it has ended, none was handed out twice if and only if no turn lapped it |
| `WalkRuns.LappedHandsOutTwice` | server/src/connection.rs:690-732 | a counter that has come all the way around to the first position makes the generator hand that position out again, after remembering the 2^64 - 2 positions in between, for every remote with two nodes or more |
| `WalkRuns.WindowEntriesDiffer` | server/src/connection.rs:596-598 | n successive positions are n different entries if and only if the counter does not wrap among them or n divides 2^64 |
| `WalkRuns.EachEntryOnce` | server/src/connection.rs:673-734 | for every first position: in every run that does not lap the generator no entry is handed out twice, if and only if the counter does not wrap among the n positions or n divides 2^64 |
| `WalkRuns.LoneRequest` | server/src/connection.rs:690-732 | a request that nobody interferes with while all hosts are reachable gets the positions from its first one on, in order |
| `WalkRuns.WrapHandsOutTwice` | server/src/connection.rs:596-598 | such a request gets an entry twice for every first position and number of nodes for which the counter wraps among them and n does not divide 2^64 |
| `FailoverRuns.StepPasses` | server/src/connection.rs:700-706 | a turn passes a position only if its host is reported unreachable or the asking request stood on it |
| `FailoverRuns.LastWasHanded` | server/src/connection.rs:691-732 | the position a first-phase generator stands on is the latest candidate its request got |
| `FailoverRuns.EveryMoveJustified` | server/src/connection.rs:557-577 | in every interleaving of any number of requests the counter passes a position only if that host was reported unreachable at that step or a request whose latest candidate it was asked for another |
| `FailoverRuns.MovesCover` | server/src/connection.rs:600-619 | since any point of a run, either all n positions ahead of it have been passed, or the counter is less than n ahead and all those before it have been |
| `FailoverRuns.GiveUpCoversAll` | server/src/connection.rs:691-716 | when a request that started at s gives up, each of the n positions from s was passed since then, each time for one of the two reasons |
| `FailoverRuns.RunInOrder` | server/src/connection.rs:600-619 | as long as the counter moves fewer than 2^64 times while a request is running, it is never behind what the request has reached, and its distance from the start is how far it has moved |
| `FailoverRuns.RunIsDrive` | server/src/connection.rs:673-734 | what one request sees of any interleaving is its generator under interference, and it is not lapped if the counter moves fewer than 2^64 times while the request is running |
| `FailoverRuns.EveryRequestEndsWithinN` | server/src/connection.rs:673-734 | in every interleaving every request that is not lapped, and so every one during which the counter moves fewer than 2^64 times, gets each position at most once, at most n in all, and ends by its turn n + 1 |
| `RetryLoop.TryAllInv` | server/src/connection.rs:771-867 | over every run of the loop its variables say exactly how the last send ended, which send may be repeated and that nothing is sent only if every candidate was in back-off |
| `RetryLoop.RequestDoes` | server/src/connection.rs:765-906 | for all attempts: exactly those not in back-off are sent to, in order, up to the first that is answered or, for a method that is not idempotent, fails after connecting, which is returned; else the first endpoint is tried once more if it could not be connected to, and what that gives is returned unless it times out, else how the last send of the loop ended, or an unknown error if there was none |
| `RetryLoop.AttemptsAreMet` | server/src/connection.rs:771-806 | the t-th position handed out meets the t-th turn: it is skipped exactly if its host is in back-off then, and a send to it ends as that turn says |
| `RetryLoop.OnlySafeResends` | server/src/connection.rs:806-842 | every send but the last ended in a connect error, a timeout or, for an idempotent method, an error after connecting |
| `RetryLoop.NotIdempotentResentOnlyAfterConnectError` | server/src/connection.rs:806-842 | a method that is not idempotent is repeated only after connect errors if and only if no attempt that the loop gets to times out while another host not in back-off follows or the first attempt failed to connect |
| `RetryLoop.TimeoutFollowed` | server/src/connection.rs:771-867 | a send other than the last timed out in the loop if and only if an attempt the loop gets to times out and a later one is on a host not in back-off |
| `RetryLoop.RemembersFirst` | server/src/connection.rs:809-814 | the first endpoint is remembered for the extra send if and only if the first attempt on a host not in back-off fails to connect |
| `RetryLoop.TimeoutRepeatsNotIdempotent` | server/src/connection.rs:839-841 | two nodes that time out both get the same non-idempotent request |
| `RetryLoop.ExtraSendIsToTheFirst` | server/src/connection.rs:869-888 | there is at most one send more than candidates, exactly when the loop ran out of candidates and the first endpoint a send was made to could not be connected to, and it goes there |
| `RetryLoop.UnknownErrorMeansNothingSent` | server/src/connection.rs:900-906 | "unknown error" is returned exactly when every candidate was in back-off, exactly when nothing was sent |
| `RetryLoop.UnknownErrorMeansAllInBackOff` | server/src/connection.rs:777-793 | over the turns of a request: an unknown error is returned if and only if every host handed out is in back-off at its own turn |
| `RetryLoop.ReplyIsLastOutcome` | server/src/connection.rs:890-906 | a response that is returned was given by one of the sends, and it is the last one's unless that timed out |
| `RetryLoop.AtMostOneSendPerHostPlusOne` | server/src/connection.rs:761-906 | whatever the other requests do, a request that is not lapped makes at most n attempts, all at different positions, and at most n + 1 sends |
| `RetryLoop.EveryRequestSendsAtMostNPlusOne` | server/src/connection.rs:673-906 | the same for every request of every interleaving, unless the counter moves 2^64 times while it is running |
| `RetryLoop.TryRequest` | server/src/connection.rs:740-906 | the macro sends and returns what is asked of a request whose candidates meet the hosts in back-off and the outcomes of their own turns, a remote in back-off gets nothing, and n + 1 turns exhaust the generator unless it is lapped |
| `RetryLoop.TryEach` | server/src/connection.rs:765-867 | the loop over the shared generator leaves the variables that trying all its candidates in order leaves, also when it returns early |
| `RetryLoop.TakeTurn` | server/src/connection.rs:771-793 | a turn gets the candidate the generator has for the counter as the other requests left it, and sends to it unless its host is in back-off |
| `RetryLoop.SendTo` | server/src/connection.rs:795-843 | one send drops the error and the timeout of the send before it, and ends, retries or remembers the first endpoint according to its outcome |
| `Fetcher.TaskStepAccounts` | server/src/parallel_fetcher.rs:355-447 | a step of a task gives back exactly the global permits it no longer holds, and brings it one step nearer to its end |
| `Fetcher.TaskStepKeeps` | server/src/parallel_fetcher.rs:341-472 | a step keeps a task's per-remote permits conserved, and done, running and waiting nodes together the listed ones |
| `Fetcher.StepKeepsInv` | server/src/parallel_fetcher.rs:291-447 | a step of any task keeps all permits conserved and all tasks consistent, and uses up one unit of the total work |
| `Fetcher.ReachableInv` | server/src/parallel_fetcher.rs:291-447 | so every reachable state is consistent, and the steps taken and the work left always add up to the work at the start |
| `Fetcher.LimitsHold` | server/src/parallel_fetcher.rs:302-413 | in every reachable state at most `max_connections` node lists and handlers are in flight overall, the node handlers of a remote and its free permits are `max_connections_per_remote`, and no global permit is lost |
| `Fetcher.HolderMoves` | server/src/parallel_fetcher.rs:382-413 | whoever holds a global permit, or one of its handlers, can move: waiting for a per-remote permit means that a handler of the same remote runs |
| `Fetcher.NeverStuck` | server/src/parallel_fetcher.rs:302-424 | with both limits at least 1, every reachable state with an unanswered remote has a step that can be taken |
| `Fetcher.Terminates` | server/src/parallel_fetcher.rs:291-514 | no run is longer than the work at the start, and a run has answered every remote exactly when it has that length and exactly when no step is left |
| `FetcherResponse.Collect` | server/src/parallel_fetcher.rs:325-338 | for every complete run: the responses in the order of completion sorted by remote; they have the remotes' ids in sorted order, and each answers its remote: the listing's error, or one response per listed node |
| `FetcherResponse.CollectedFits` | server/src/parallel_fetcher.rs:291-447 | the same of every complete run, whatever the order of its steps |
| `FetcherResponse.JoinAll` | server/src/parallel_fetcher.rs:325-334 | the responses are joined one per task, in the order of completion |
| `Ordering.StringLeMeans` | server/src/parallel_fetcher.rs:336 | the order of the ids is the lexicographic one |
| `FetcherResponse.RunsAgree` | server/src/parallel_fetcher.rs:291-447 | any two complete runs over the same remotes with distinct ids return the same remotes in the same order with the same answers, up to the order of a remote's nodes |
| `FetcherResponse.GetRemoteResponse` | server/src/parallel_fetcher.rs:121-126 | binary search over the sorted responses finds what a linear search finds |
| `FetcherResponse.FindFinds` | server/src/parallel_fetcher.rs:121-126 | that is a response of the remote, if and only if there is one |
| `RemoteUpid.ParsedIsSafe` | lib/pdm-api-types/src/remote_upid.rs:120-203 | whatever text is accepted, in either form, the remote id is safe |
| `RemoteUpid.PrintParse` | lib/pdm-api-types/src/remote_upid.rs:192-210 | parsing what was printed gives the same value if and only if its remote id is safe, for every task id text, also one with '!' or ':' |
| `RemoteUpid.ParseExactly` | lib/pdm-api-types/src/remote_upid.rs:120-203 | a text is accepted as a value if and only if the remote id is safe and the text is the value printed, or the remote and the UPID alone, with the type whose form the UPID has |
| `RemoteUpid.PrintForm` | lib/pdm-api-types/src/remote_upid.rs:206-210 | the text form of a PVE and of a PBS task id |
| `RemoteUpid.PrintInjective` | lib/pdm-api-types/src/remote_upid.rs:206-210 | values with safe remotes that print alike are equal |
| `RemoteUpid.ParsePrintStable` | lib/pdm-api-types/src/remote_upid.rs:192-210 | a value parsed from either form survives printing and parsing unchanged |
| `RemoteUpid.LegacyForm` | lib/pdm-api-types/src/remote_upid.rs:120-137 | the form without a type stands for the remote and the UPID split at the first '!', with the type deduced from the UPID |
| `RemoteUpid.RawUpidKeepsRemote` | cli/client/src/upid.rs:5-25 | a valid raw task id is taken with exactly the given remote and id, as PVE if it has that form and else as PBS, if and only if the remote id is safe |
| `RemoteUpid.ForRemoteExactly` | cli/client/src/upid.rs:5-25 | a text with a separator is accepted if and only if it parses and has the given remote, if one is given, and is a mismatch exactly if it parses to another remote; any other text needs a remote |
| `RemoteUpid.ColonInRemoteChangesIt` | cli/client/src/upid.rs:19-21 | a remote given with a type in front is read as that type and another remote |
| `BackupJobs.DerivedInverse` | lib/pdm-api-types/src/backup_jobs.rs:26-37 | a job on a remote stands for a unified job if and only if it has that job's derived id |
| `BackupJobs.DerivedText` | lib/pdm-api-types/src/backup_jobs.rs:26-32 | the derived id is the job id after the prefix by which PDM knows its jobs |
| `BackupJobs.DerivedInjective` | lib/pdm-api-types/src/backup_jobs.rs:29-32 | different jobs have different derived ids |
| `BackupJobs.FirstTargetDecides` | lib/pdm-api-types/src/backup_jobs.rs:211-217 | the first target override for a remote decides its storage, and the default only applies without one |
| `BackupPlan.BuildPlan` | server/src/backup_jobs.rs:54-123 | a remote is planned exactly when a guest is; its plan is never empty, has exactly the vmids that an explicit entry resolves to there or that a tag selects there, strictly ascending, its storage, and the node of exactly those the cache has there |
| `BackupPlan.PlannedMeans` | server/src/backup_jobs.rs:62-97 | a guest is planned on a remote if and only if an explicit entry for it belongs there, or it is cached there, is no template, has a wanted tag, and the remote is allowed |
| `BackupPlan.ResolveMeans` | server/src/backup_jobs.rs:65-73 | an entry belongs to the remote of the only cached guest with its vmid, unless the job is set not to follow migrations, and else to its own |
| `BackupPlan.GroupByVmid` | server/src/backup_jobs.rs:57-60 | the table has for every vmid exactly its cached guests, in order |
| `BackupPlan.SelectExplicit` | server/src/backup_jobs.rs:65-73 | exactly the explicit entries are selected, each where it resolves to |
| `BackupPlan.SelectByTag` | server/src/backup_jobs.rs:75-97 | exactly the non-template guests with a wanted tag on an allowed remote are added |
| `BackupPlan.FindNodes` | server/src/backup_jobs.rs:104-109 | the nodes of exactly the selected vmids cached on the remote, the last cached one winning |
| `BackupPlan.SortVmids` | server/src/backup_jobs.rs:110-111 | the selected vmids, each once, strictly ascending |
| `BackupPlan.PlanUnique` | server/src/backup_jobs.rs:54-123 | the specification determines the plan: jobs that plan the same guests with the same storages have equal plans |
| `BackupPlan.NoExplicitVmidLost` | server/src/backup_jobs.rs:65-73 | every explicitly selected vmid is in the plan of some remote |
| `BackupMigration.LocationsAre` | server/src/backup_jobs.rs:579-585 | the locations of a vmid are exactly the remotes the cache has it on, each once |
| `BackupMigration.FollowMeans` | server/src/backup_jobs.rs:596-619 | a job set not to follow migrations stays as it is; of any other only the remotes of guest entries change, each to the one remote the cache has its vmid on, if there is just one |
| `BackupMigration.FollowKeepsPlans` | server/src/backup_jobs.rs:576-631 | the rewrite leaves what every job plans unchanged if and only if no vmid has several cached guests all on one remote |
| `BackupMigration.TwoGuestsBreakFollowing` | server/src/backup_jobs.rs:605-617 | for every such vmid there is a job whose plan the rewrite changes |
| `BackupMigration.CachedTwiceMovesPlan` | server/src/backup_jobs.rs:65-73 | a guest cached on two nodes of one remote: an entry for it on another remote is planned there before the rewrite and on the first one after it |
| `BackupMigration.FollowKeepsPlan` | server/src/backup_jobs.rs:576-631 | on such a cache a job has the same plan before and after the rewrite, storages and nodes included |
| `BackupMigration.NoDuplicatesSuffice` | server/src/backup_jobs.rs:576-631 | a cache with at most one guest per remote and vmid is such a cache |
| `BackupMigration.FollowIdempotent` | server/src/backup_jobs.rs:576-631 | a second rewrite on the same cache changes nothing |
| `BackupMigration.JobConfig.LocationTable` | server/src/backup_jobs.rs:579-585 | the table has exactly the locations of every vmid |
| `BackupMigration.JobConfig.FollowGuests` | server/src/backup_jobs.rs:603-619 | every entry whose vmid has one location gets that remote, all others stay, and a change is reported exactly when there is one |
| `BackupMigration.JobConfig.FollowMigratedGuests` | server/src/backup_jobs.rs:576-631 | every job that follows migrations is rewritten in place, the others stay, and exactly the ids of those that changed are returned in order |
| `BackupMigration.ChangedIdsAre` | server/src/backup_jobs.rs:621-623 | exactly the ids of jobs with a changed guest entry are returned |
| `JobPayload.DesiredPayload` | server/src/backup_jobs.rs:126-161 | the payload lists the planned vmids in decimal so that they read back, the storage, 1 for enabled exactly if the job is not disabled, the comment or one naming the job, and every option that is set under its own key, and has no other key |
| `JobPayload.WithOptions` | server/src/backup_jobs.rs:141-158 | every option that is set replaces or adds its key, and nothing else changes |
| `JobPayload.IsInSync` | server/src/backup_jobs.rs:215-255 | true exactly when guests, flag, retention and every compared key agree as far as PDM asks for them, and the remote's job does not select guests through `all` or `pool`; `JobComparison.InSyncExactly` says it of a job and its plan |
| `JobPayload.KeysMatch` | server/src/backup_jobs.rs:232-247 | true exactly when every key compared as text has the wanted value, where one is wanted |
| `JobComparison.InSyncExactly` | server/src/backup_jobs.rs:215-255 | a remote's job is in sync if and only if it names exactly the planned vmids, is off exactly if the job is disabled, has the same retention parts if the job sets any, agrees with every option the job sets, and has neither `all` on nor a `pool` |
| `JobComparison.SameVmidsExactly` | server/src/backup_jobs.rs:186-195 | two values compare alike if and only if they name the same vmids |
| `JobComparison.NormalizedVmidsAre` | server/src/backup_jobs.rs:186-195 | the normalized list has exactly the vmids a value names, each once, ascending |
| `JobComparison.SamePropertiesExactly` | server/src/backup_jobs.rs:198-213 | two property strings, as text or object, compare alike if and only if they have the same parts in whatever order |
| `JobComparison.PartsAre` | server/src/backup_jobs.rs:205-210 | the parts are the pieces between commas without surrounding white space and without empty ones |
| `JobComparison.FieldsPrinted` | server/src/api/pve/backup.rs:43-52 | an object reads as key, equals sign and value, flags as 1 or 0 |
| `JobComparison.FlagsRead` | server/src/backup_jobs.rs:164-175 | which values count as a flag that is on and which as one that is off |
| `Text.TrimMeans` | server/src/backup_jobs.rs:190 | trimming takes away white space at both ends and nothing else |
| `Text.DecimalForm` | server/src/backup_jobs.rs:127-132 | a number is printed with its digits most significant first and without leading zeros |
| `JobPayload.VmidTextRoundTrip` | server/src/backup_jobs.rs:127-132 | the list of vmids written as text is read back unchanged |
| `RemoteEncoding.VmidsSeenThrough` | server/src/backup_jobs.rs:186-195 | a list of vmids in another order, or a single one as a number, normalizes alike |
| `RemoteEncoding.PartsRoundTrip` | server/src/backup_jobs.rs:205-212 | joining the parts of a property string and splitting it again gives the parts |
| `RemoteEncoding.PropertiesSeenThrough` | server/src/backup_jobs.rs:198-213 | a property string in another order, or returned as an object, normalizes alike |
| `RemoteEncoding.HoldsDesiredIsInSync` | server/src/backup_jobs.rs:215-255 | a remote's job that holds what PDM wants compares as in sync, however the remote encodes it |
| `RemoteEncoding.WrittenIsInSync` | server/src/backup_jobs.rs:332-357 | a job just created or updated is in sync, whatever was there before and however the remote reports it |
| `RemoteEncoding.WriteIdempotent` | server/src/backup_jobs.rs:332-357 | writing a second time changes nothing |
| `RemoteEncoding.UpdateIsCreateExactlyWithoutLeftovers` | server/src/backup_jobs.rs:345-354 | updating leaves the same job as creating it if and only if the old one had no key but its id, those written again and those deleted |
| `RemoteEncoding.UnsetOptionStays` | server/src/backup_jobs.rs:141-152 | a mode that is unset in a job stays set on the remote, and the job still compares as in sync |
| `JobSync.PveRemotes.ApplyOnRemote` | server/src/backup_jobs.rs:332-357 | the derived job, and nothing else on any remote, is created or updated, and the resolved storage returned, exactly if storage lookup, job list and change all succeed; else nothing changes |
| `JobSync.PveRemotes.RemoveOnRemote` | server/src/backup_jobs.rs:359-370 | only the derived job goes, a missing one is no error, and a remote that does not list or change its jobs is unchanged |
| `JobSync.PveRemotes.SyncJob` | server/src/backup_jobs.rs:374-409 | the plan meets its specification, and every configured remote ends up with the derived job if it is planned, without it if not, or unchanged if a call fails; one status per configured planned remote |
| `JobSync.PveRemotes.SyncPlan` | server/src/backup_jobs.rs:379-406 | the same for a given plan, as the loop over the remotes |
| `JobSync.PveRemotes.SyncOnRemote` | server/src/backup_jobs.rs:380-405 | one round of that loop changes only its own remote |
| `JobSync.PveRemotes.JobStatus` | server/src/backup_jobs.rs:428-494 | reports the planned remotes in ascending order and after them exactly the remotes that still carry the job without being planned |
| `JobSync.PveRemotes.PlannedStatus` | server/src/backup_jobs.rs:434-471 | a planned remote is an error if its storage does not resolve or it does not list its jobs, with the storage in the latter case, missing without the derived job, and else in sync or not as comparing says |
| `JobSync.PveRemotes.StaleStatuses` | server/src/backup_jobs.rs:473-491 | exactly the unplanned remotes that answer and have the derived job are reported |
| `JobSync.SyncThenStatus` | server/src/backup_jobs.rs:374-494 | after a sync in which all calls succeed, for every way the remotes may encode jobs, no remote is stale and a planned remote is reported as synced if and only if it is configured |
| `JobSync.GoneRemoteIsError` | server/src/backup_jobs.rs:379-462 | a job with a guest on a remote that is not configured: the sync reports nothing of it, the status an error |
| `JobSync.SyncIdempotent` | server/src/backup_jobs.rs:374-409 | a second sync with the same plan changes no remote, whichever calls fail |
| `SyncOutcomes.SyncDoes` | server/src/backup_jobs.rs:332-409 | over every job of every remote: a sync writes the derived job if the remote is planned and removes it if not, exactly if the calls for it succeed, and leaves every other job |
| `SyncOutcomes.WrittenDoes` | server/src/backup_jobs.rs:338-354 | a written job has every key of the payload, of an existing job all other keys but `all`, `pool`, `exclude` and `node`, and of a new one the derived id |
| `SyncOutcomes.SyncStatusMeans` | server/src/backup_jobs.rs:379-399 | a sync reports exactly the configured planned remotes in order, as synced with the resolved storage if all calls succeed and else as an error with the planned one |
| `SyncOutcomes.PlannedEntryMeans` | server/src/backup_jobs.rs:433-471 | the state a status gives a planned remote: an error, missing, in sync exactly if the derived job does what is wanted, and else out of sync |
| `SyncOutcomes.StaleMeans` | server/src/backup_jobs.rs:473-491 | a status reports as stale exactly the configured remotes that are not planned, list their jobs and have the derived job, in order |
| `SyncOutcomes.SyncedJobDoesWhatIsWanted` | server/src/backup_jobs.rs:332-409 | after a sync in which all calls succeed, what a configured planned remote reports of the derived job names the planned vmids, is enabled exactly if the job is, and agrees with all that the job sets, however the remote encodes it |
| `Reconcile.ForeignUntouched` | server/src/backup_jobs.rs:634-648 | a remote's job that no configured job stands for is never changed |
| `Reconcile.OnlyItsOwnSync` | server/src/backup_jobs.rs:634-648 | each derived job ends up as if its own job alone had been synced |
| `Reconcile.OrderDoesNotMatter` | server/src/backup_jobs.rs:634-648 | syncing distinct jobs in any order leaves the same remotes |
| `Reconcile.CarriedExactlyWherePlanned` | server/src/backup_jobs.rs:634-648 | when all calls succeed a configured remote carries a derived job if and only if the job's plan covers it |
| `Reconcile.ReconcileThenStatus` | server/src/backup_jobs.rs:428-494 | when all calls succeed, the status of every job after reconciling all of them is synced on every planned remote that is configured and stale nowhere, however the remotes encode the jobs |
| `Reconcile.SecondReconcileChangesNothing` | server/src/backup_jobs.rs:634-648 | a second reconcile on the same guests changes neither the configuration nor any remote, whichever calls fail, and makes the same plans |
| `Reconcile.SyncEach` | server/src/backup_jobs.rs:639-645 | the loop syncs every job with a plan that meets its specification |
| `Reconcile.ReconcileAll` | server/src/backup_jobs.rs:634-648 | jobs are rewritten for guests that moved, then every rewritten job is synced in order |
| `PendingGuests.GlobalIdInjective` | ui/src/pending_guests.rs:66-70 | the global id determines remote and vmid, whatever the remote is called |
| `PendingGuests.GlobalIdForm` | ui/src/pending_guests.rs:68-70 | the text of the global id |
| `PendingGuests.PrunesExactlySeen` | ui/src/pending_guests.rs:100-115 | pruning takes away exactly the finished placeholders of the guests that have shown up |
| `PendingGuests.StepKeepsInv` | ui/src/pending_guests.rs:105-195 | every operation keeps one placeholder per guest, a poll chain for every one being created and a removal timer for every finished one |
| `PendingSteps.StepDoes` | ui/src/pending_guests.rs:105-195 | what each operation does to the list, the chains and the timers, stated over their elements: which entries go and which stay in order, which state an entry gets, when a chain polls again, and which timer is set |
| `PendingSteps.FinishedWasAnswered` | ui/src/pending_guests.rs:177-192 | over every run: a placeholder is done only if a chain of its guest was answered with success since it was added, and failed with a message only if one was answered with that exit status or the question failed with it at the 300th poll |
| `PendingSteps.AnswerDoes` | ui/src/pending_guests.rs:177-192 | conversely, an answer that ends its chain gives exactly the entry of its guest the state it stands for and a timer, or removes it after 300 polls without a status; any other polls again |
| `PendingGuests.EveryPlaceholderLookedAfter` | ui/src/pending_guests.rs:105-195 | so it holds over all runs of add, poll, answer, removal, forget and prune, re-adding guests included |
| `PendingGuests.StepMeasure` | ui/src/pending_guests.rs:158-195 | every timer that fires and every answer uses up some of the remaining polls and timers, and only adding a guest raises them |
| `PendingGuests.EveryPlaceholderLeaves` | ui/src/pending_guests.rs:105-195 | with no further adds only so many timers and answers can fire, one can exactly as long as a chain or timer is left, and when none can any more the list is empty |
| `PendingGuests.StandsForItsOwnTask` | ui/src/pending_guests.rs:117-195 | a placeholder stays as being created as long as a chain of its own UPID is pending, in every run that does not add or forget that guest, if and only if no chain or timer of the same guest was pending when it was added |
| `PendingGuests.LeftoverTimerBreaks` | ui/src/pending_guests.rs:158-161 | a removal timer left over takes a new placeholder away while its task is running |
| `PendingGuests.LeftoverChainBreaks` | ui/src/pending_guests.rs:172-182 | a chain left over marks a new placeholder as done while its task is running |
| `PendingGuests.ReaddedIsRemoved` | ui/src/pending_guests.rs:118-195 | from an empty list, adding a guest, its task ending well and adding it again: the first timer removes the new placeholder while its own chain is pending |
| `PendingGuests.PendingGuests.constructor` | ui/src/pending_guests.rs:83-87 | an empty list with nothing pending |
| `PendingGuests.PendingGuests.AddGuest` | ui/src/pending_guests.rs:118-127 | the guest replaces an earlier placeholder of the same key and gets a chain, keeping the invariant |
| `PendingGuests.PendingGuests.Drop` | ui/src/pending_guests.rs:129-132 | exactly the entries of one guest go, the others keep their order |
| `PendingGuests.PendingGuests.ForgetGuest` | ui/src/pending_guests.rs:136-146 | the same, changing nothing if there is none, and keeping the invariant |
| `PendingGuests.PendingGuests.PruneSeen` | ui/src/pending_guests.rs:105-115 | the seen finished placeholders go, chains and timers stay, and the invariant is kept |
| `PendingGuests.PendingGuests.Mark` | ui/src/pending_guests.rs:148-156 | only the first entry of the guest gets the state |
| `PendingGuests.PendingGuests.Finish` | ui/src/pending_guests.rs:163-170 | the placeholder is marked, its chain ends and a removal timer is pending |
| `PendingGuests.PendingGuests.TimerFires` | ui/src/pending_guests.rs:172-176 | the chain asks for its task's status, and nothing else changes |
| `PendingGuests.PendingGuests.AnswerArrives` | ui/src/pending_guests.rs:177-192 | an exit status finishes the placeholder; no status, or a failed call, polls again until 300 polls and then removes it or marks it failed; the invariant is kept |
| `PendingGuests.PendingGuests.RemovalFires` | ui/src/pending_guests.rs:158-161 | whatever stands under the timer's key goes, and the invariant is kept |
| `SdnClient.LockingEnds` | server/src/sdn_client.rs:189-242 | locking ends with all names locked, or at the first name that is not configured, keeping all locks, or at the first that cannot be locked, releasing all it can |
| `SdnClient.FailedLockingUndone` | server/src/sdn_client.rs:189-242 | failed locking leaves the remotes as they were if and only if nothing was locked yet, or the name is a configured one and every release succeeds |
| `SdnClient.UnknownNameKeepsLock` | server/src/sdn_client.rs:197-204 | a configured name followed by one that is not: the first remote stays locked |
| `SdnClient.RollbackRestores` | server/src/sdn_client.rs:278-311 | rolling back every locked remote restores them if and only if none had pending changes before |
| `SdnClient.AllOrNothing` | server/src/sdn_client.rs:189-317 | with all names configured, no pending changes allowed and releases and rollbacks succeeding, for every set of lock and callback failures: all remotes locked and changed with every callback successful, or all as before |
| `SdnClient.TransactionDoes` | server/src/sdn_client.rs:189-317 | for every pattern of lock, release, callback and rollback failures, whether pending changes are allowed or not: the state of every remote afterwards and what is returned |
| `SdnClient.RollbackDropsEarlierChanges` | server/src/sdn_client.rs:249-317 | if pending changes were allowed, a failed transaction leaves the remotes as before if and only if there were none |
| `SdnClient.ErrorMissesFailedApplies` | server/src/sdn_client.rs:355-442 | in every order of completion an error is returned exactly when applying or reloading failed on a remote, as promised, if and only if no apply failed and no reload without a valid task id did, or a reload with a valid one failed as well |
| `SdnClient.ErrorIfPolledFails` | server/src/sdn_client.rs:416-439 | what is returned is an error if and only if a reload with a valid task id failed |
| `SdnClient.FailedApplyUnreported` | server/src/sdn_client.rs:403-408 | one remote whose apply fails: no error |
| `SdnClient.UnreadableIdUnreported` | server/src/sdn_client.rs:391-396 | one remote whose reload fails under a task id that cannot be read: no error |
| `SdnClient.TransactionApplied` | server/src/sdn_client.rs:189-442 | from locking to applying: after a successful transaction each named remote is unlocked with nothing pending if its apply succeeds and else left locked with its change pending, and no other remote has changed |
| `SdnClient.SdnRemotes.FromRemoteNames` | server/src/sdn_client.rs:189-242 | the loop locks, stops and releases as the specification of locking says |
| `SdnClient.SdnRemotes.ReleaseEach` | server/src/sdn_client.rs:211-220 | every held remote whose release succeeds is unlocked, and a failing release does not stop the others |
| `SdnClient.SdnRemotes.ForEach` | server/src/sdn_client.rs:249-317 | every callback is run; if any failed, all remotes are rolled back and an error is returned |
| `SdnClient.SdnRemotes.CallEach` | server/src/sdn_client.rs:256-276 | all callbacks are run, and an error is noted exactly when one fails |
| `SdnClient.SdnRemotes.RollBackEach` | server/src/sdn_client.rs:278-311 | every remote whose rollback succeeds is unlocked without pending changes, and a failing one does not stop the others |
| `SdnClient.SdnRemotes.PollTask` | server/src/sdn_client.rs:332-353 | a reload is queried until its first status that is not "running" and no further, and counts as successful exactly if that is a successful end |
| `SdnClient.SdnRemotes.PollEach` | server/src/sdn_client.rs:416-435 | every task is polled to its end, and an error noted exactly if one fails |
| `SdnClient.SdnRemotes.ApplyAndRelease` | server/src/sdn_client.rs:366-442 | in every order of completion each locked client is applied exactly once, exactly the successful applies with a valid task id are polled to their end, an error is returned exactly when one of those reloads failed, and exactly the remotes whose apply succeeded are released |
| `SdnClient.SdnRemotes.ApplyEach` | server/src/sdn_client.rs:369-410 | applying releases exactly the remotes it succeeds on and collects the tasks to poll |
| `NamespacedCache.FreshExactly` | server/src/namespaced_cache.rs:537-546 | an entry counts as fresh exactly if 0 <= now - timestamp < max_age, for every clock past the epoch; for any clock, exactly unless the subtraction wraps from far below into the range |
| `NamespacedCache.WrappedLooksFresh` | server/src/namespaced_cache.rs:543-544 | a clock before the epoch for which an entry from the future passes for fresh |
| `NamespacedCache.PathsDiffer` | server/src/namespaced_cache.rs:666-674 | different safe namespaces or keys have different files, none of which is a lock file |
| `NamespacedCache.PathForm` | server/src/namespaced_cache.rs:666-674 | where an entry and the lock of a namespace are |
| `NamespacedCache.RefusedMeans` | server/src/namespaced_cache.rs:676-692 | which names are refused, the namespace being looked at first |
| `NamespacedCache.LastOfGreatestWins` | server/src/namespaced_cache.rs:586-649 | over every run of set_if_newer calls on any entries an entry ends with the greatest timestamp submitted for it and the value of the last call with it, unless it held a later one from the start; others are unchanged |
| `NamespacedCache.TurnedDownByLater` | server/src/namespaced_cache.rs:595-600 | a call is turned down if and only if the entry held a strictly later timestamp from the start or an earlier call for it had one |
| `NamespacedCache.Store.constructor` | server/src/namespaced_cache.rs:666-669 | a store without entries |
| `NamespacedCache.Store.Get` | server/src/namespaced_cache.rs:548-584 | a value is returned exactly when the entry is there and fresh, an error exactly for unsafe names or an unreadable file, and a maximal age of 0 does not look |
| `NamespacedCache.Store.Set` | server/src/namespaced_cache.rs:615-649 | only the entry's file is replaced; an unsafe name changes nothing |
| `NamespacedCache.Store.SetIfNewer` | server/src/namespaced_cache.rs:586-613 | the existing value is returned exactly when it is strictly later, and then nothing changes; an unreadable file is overwritten |
| `NamespacedCache.Store.Remove` | server/src/namespaced_cache.rs:651-664 | only the entry's file goes, and a missing one is no error |
| `RemoteUpdates.RecordNodes` | server/src/remote_updates.rs:273-299 | whatever was cached, the nodes are exactly those of the response, each with the last result given for it |
| `RemoteUpdates.SummarizeMeans` | server/src/remote_updates.rs:30-53 | a fetched node is a success with its own values, the number of updates cut to 32 bits; a failed one has the error as its message and nothing else |
| `RemoteUpdates.ReadsBack` | server/src/remote_updates.rs:184-191 | what is stored is read back, and a missing or unreadable summary counts as empty |
| `RemoteUpdates.Record` | server/src/remote_updates.rs:272-307 | a remote's entry has status, message and nodes of the answer, with no node left of a failed remote, and keeps its type |
| `RemoteUpdates.RecordAll` | server/src/remote_updates.rs:254-308 | the cache holds exactly the remotes of the response, each with its answer; a cached remote keeps its type and a new one gets the response's |
| `RemoteUpdates.RefreshForgets` | server/src/remote_updates.rs:254-308 | remotes, nodes, statuses and messages after the final pass depend on the response alone, whatever the cache held |
| `RemoteUpdates.TypeAfterRefresh` | server/src/remote_updates.rs:200-310 | after a refresh with any writes in between, by anyone, a remote has the type it was cached with, else that of the first write for it, and only without one that of the response |
| `RemoteUpdates.RefreshDependsOnResponse` | server/src/remote_updates.rs:231-310 | a refresh leaves what it would leave of an empty cache, for every cache and all per-node writes in any order, if and only if no remote of the response was cached, or first written, with another type than the response gives it |
| `RemoteUpdates.WritesKeepTypes` | server/src/remote_updates.rs:200-224 | when the final pass begins a remote is cached exactly if it was or a write was for it, with the type it had or else the first written |
| `RemoteUpdates.StaleTypeSurvives` | server/src/remote_updates.rs:262-270 | a remote cached as PBS and reported as PVE stays PBS |
| `RemoteUpdates.LateWriterDecides` | server/src/remote_updates.rs:56-70 | a remote not cached and reported as PVE ends as PBS if a writer that still has it as PBS comes first |
| `RemoteUpdates.UpdateCache.constructor` | server/src/remote_updates.rs:184-191 | nothing is cached yet |
| `RemoteUpdates.UpdateCache.UpdateNode` | server/src/remote_updates.rs:200-224 | one node's result is written and no other node, status or type changes; an unreadable cache counts as empty |
| `RemoteUpdates.UpdateCache.RecordResponse` | server/src/remote_updates.rs:250-310 | the stored summary is the one the final pass makes of what was stored |

## Left out

- HTTP, TLS, login and tokens in `server/src/connection.rs`, and the PBS client: network code over libraries that are not part of this model.
- The reachability and back-off cache behind the failover client: it is not part of this model; what it answers is chosen freely at every step, so marking hosts in it has no effect here.
- RetryLoop.TryRequest: parameters that cannot be serialized are left out, and the durations of the timeout and the back-off are outcomes; `moments` is what the request meets at each of its turns, n + 1 of them at least.
- MultiClient.TryClients.RememberSkipped: `current + 1` at line 722 wraps, as in a build without overflow checks; with them it would panic on the one position 2^64 - 1.
- WalkRuns.EachPositionOnce: a remote has at most 2^62 nodes, and the counter does not lap the generator, without which it is false (`WalkRuns.OncePerPositionExactlyUnlapped`); the statements built on it carry the same condition.
- Fetcher: the tasks and semaphores of the runtime are a state machine on values; panics, join errors, durations and the fairness of the semaphores are left out, and `do_for_all_remotes` is the case in which every remote has a direct job.
- BackupPlan.BuildPlan: map and set iteration is in an arbitrary order, as the result does not depend on it; the guest cache is a parameter.
- The storage lookup of a job on a remote (`resolve_storage`) is a parameter, as are the ends of all other calls to a remote, by remote and job; they are the same for all calls one job makes to one remote.
- JobSync.PveRemotes.ApplyOnRemote: a call that fails changes nothing on the remote; error texts and the encoding of ids in paths are left out.
- JobPayload: numbers in remote records are whole numbers, fields of a reported retention object are texts, flags or numbers, and keys are an enumeration of the names that occur.
- Starting a job at once (`run_job`) and removing one (`remove_job`): they go through the same plan and the same removal call by call and keep no state of their own.
- Reconcile.ReconcileAll: the guests are one snapshot for all jobs, and the configuration file can be read and written.
- PendingGuests: intervals are left out, timers fire in any order; node, guest type and listeners of the list play no part in what is modelled.
- SdnClient: the effect of a remote call is whether the remote is locked and whether it has pending changes; a lock, release, rollback or apply call that fails leaves the remote as it was; contexts of the callbacks and error texts are left out.
- SdnClient.SdnRemotes.PollTask: a reload is taken to end at some time.
- NamespacedCache: file system errors, permissions and lock timeouts are left out; a file holds an entry or something unreadable, and each operation runs under its namespace's lock.
- The expression behind safe ids is not part of this model; a safe id is taken to be non-empty, without '/', ':' or '!', and not to begin with a dot.
- RemoteUpdates: package and version lists are reduced to what the summary keeps; the repository check, the summary for the configured remotes and the removal of the old cache file are single lookups and a chain of conditions without state.
- The rest of the user interface, the command line, the configuration files and the access control: data declarations, forms and plumbing without hard state.
