# Verified model of the Flux helm-controller

The helm-controller keeps a Helm release in the state a `HelmRelease` object asks
for. One reconciliation classifies the Helm storage against the snapshot history
recorded on the object, picks an action, runs it, and goes round again until
nothing remains to be done or it has to wait. This project models that loop, the
actions it runs, the history it keeps as a cache of the Helm storage, and three
smaller parts of the controller, and proves what holds of every run.

## How it is built

The project has two layers.

* Functions on values say what each operation does. `Api` holds the data,
  `Snapshots` the history, `Releases` the storage, observation and verification,
  `Recording` the observers, `Requests` the annotation tokens and failure reset,
  `State` the classification, `Actions` the action reconcilers and `AtomicRelease`
  the decision and the loop. Everything the controller cannot control is a
  parameter: an environment gives, for every turn of the loop, what others did to
  the storage, what Helm writes and whether it fails, what the cluster looks like,
  and which reads, patches and interruptions go wrong. The theorems quantify over
  all environments.
* Classes and methods with loops do the same work in place, as the controller
  does. `Objects` and `Reconcilers` hold the history that is sorted, truncated and
  overwritten, the observing storage driver, the object, every action reconciler,
  and the loop itself; each method is proved equal to the function that specifies
  it. `Summary`, `LogRing` and `ChartRef` hold their classes beside their
  specifications.

The theorems are in `Runs` (shape of a run, lifting of invariants to sequences of
attempts, with crashes), `Classification`, `Decisions` and `Outcomes` (what every
state, decision, action and answer means, without the functions that compute it),
`Counters`, `Budget`, `UpgradeBudget`, `InstallBudget`, `TestBudget`, `Coherence`, `Tidiness`, `Recovery`, `Lifecycle`, `Completion` and `Progress`. A crash
leaves the status that was last patched, before or after an action, and whatever
storage the next turn meets; `Lifecycle` also models the writes that an action cut
short had made.

Digests are symbolic: the digest of a value carries the algorithm and the value, so
it is free of collisions. Sorting is insertion sort, which is what the Go library
does for lists of this length; `Snapshots.SortUnique` shows that for distinct
versions any sort gives the same result.

## Where the code and its documentation differ

* `VerifyReleaseObject` says that for snapshots of an older format the caller still
  matches name, namespace and version. `DetermineReleaseState` does not, so such a
  snapshot verifies against any last release. `Recovery.UnlockRecovers` states the
  effect for every history: after an unlock the release is found failed, not
  unmanaged, even if such a snapshot is of another version;
  `Recovery.LegacyTakenForAny` is an instance.
* `summarize` says it sorts by highest generation and priority. Its comparison does
  not order by generation; conditions whose generations contradict their
  priorities are incomparable. `Summary.FirstExactly` states exactly when the
  condition of highest priority comes first whatever the order of the conditions;
  `Summary.OrderDecides` is an instance where it does not.
* A suspended object whose chart template changes would leave its old chart behind;
  `ChartRef.TemplateStep` gives the exact condition and
  `ChartRef.SuspendedLeavesBehind` an instance. The controller does not reconcile
  suspended objects.

## Model

| member | source | states |
|---|---|---|
| Runs.ReconcileShape | internal/reconcile/atomic_release.go:155-334 | For every request, world and environment, one reconciliation has at most five turns that decide, runs no two actions of one type, and runs a remediation only last. |
| Runs.LoopShape | internal/reconcile/atomic_release.go:176-333 | From any set of types already run, the number of turns is at most one more than the non-remediation types left. |
| Runs.KeptByAttempts | internal/controller/helmrelease_controller.go:404-441 | What every decision, action, attempt record and end of an attempt keeps of the status holds after any sequence of attempts, with crashes while any action runs and after it was recorded. |
| Counters.CountersAccounted | internal/reconcile/install.go:104-121 | In every run from an empty status, with any requests and crashes, failures are at least the install plus upgrade failures, and a positive counter implies the last attempted action is an install or upgrade. |
| Counters.ResultsMeaningful | internal/reconcile/atomic_release.go:203-323 | In such runs, exceeded retries come with a counter above a non-negative limit and an active remediation to report, a retry after an interval with an active retry, and nothing is dereferenced that is nil unless Helm reports a release it did not write. |
| Budget.EscapesExactly | internal/reconcile/atomic_release.go:337-581 | A release action starts beyond its own retries if and only if one of the listed escapes applies: force request, unmanaged release, or a failed release with active retry, no active remediation, zero active counter or unverifiable rollback target. |
| Budget.BudgetKept | internal/reconcile/atomic_release.go:423-501 | Every run from an empty status whose events take none of those escapes, nor run a test that counts against exhausted retries, keeps each counter at most one above the retries last asked for, through any changes of the requests in which the retries go with the generation, for every environment and any crashes. |
| UpgradeBudget.ExactUpgradeBudget | internal/reconcile/atomic_release.go:502-577 | If every upgrade fails after writing a new release, which it leaves failed or pending, whatever it prunes or rewrites as long as the replaced release stays deployed or superseded, and every rollback that is run succeeds, exactly retries plus one attempts upgrade, a pending release is unlocked in between, all but the last are rolled back, the last exactly if the last failure must be remediated, the last reports exceeded retries, and none of any number of later attempts runs anything. |
| UpgradeBudget.CampaignOver | internal/reconcile/atomic_release.go:423-455 | With the retries used up, any number of attempts that nothing interferes with, crashes included, run nothing and leave them used up. |
| UpgradeBudget.TargetAfterUpgrade | internal/reconcile/release.go:77-112 | After an upgrade that wrote a new release on top, the rollback target is the release deployed before, recorded as the upgrade left it. |
| UpgradeBudget.AttemptExact | internal/reconcile/upgrade.go:85-112 | One such attempt runs one upgrade, unlocks what it left pending, then runs a rollback or nothing, and leaves the release at rest or given up with the counter one higher. |
| UpgradeBudget.UnlockMends | internal/reconcile/unlock.go:64-94 | Unlocking the pending release of an upgrade leaves it failed, with the same rollback target. |
| UpgradeBudget.RollbackRestores | internal/reconcile/rollback_remediation.go:75-111 | A rollback that succeeds leaves a mirrored, deployed release that still differs from the request. |
| UpgradeBudget.AdverseExists | internal/action/upgrade.go:102-115 | Every managed, deployed, out-of-sync release can meet such an upgrade, deleting any older releases as a limited history makes it do and leaving its release failed or pending, and such a rollback. |
| UpgradeBudget.CampaignExists | internal/reconcile/upgrade.go:67-117 | There are campaigns of any length up to retries plus one, from every such release. |
| InstallBudget.ExactInstallBudget | internal/reconcile/atomic_release.go:423-435 | The same exact budget for installs from a vacant release, whatever they write below their own release and whether they leave it failed or pending, remediated by uninstalls that keep or remove the release history, with the same end for all later attempts. |
| InstallBudget.InstallAttemptExact | internal/reconcile/install.go:81-121 | One such attempt runs one install, unlocks what it left pending, then runs an uninstall or nothing, and leaves room for another install or the failed one. |
| InstallBudget.UninstallVacates | internal/reconcile/uninstall_remediation.go:80-127 | An uninstall that writes the release is reported as a success and leaves the release absent. |
| InstallBudget.AdverseInstallExists | internal/action/install.go:88-99 | Every vacant release can meet an install that marks a kept release as superseded, and fails, leaving its own failed or pending, and an uninstall that keeps the history. |
| InstallBudget.InstallCampaignExists | internal/reconcile/install.go:71-126 | There are campaigns of any length up to retries plus one, from every vacant release. |
| TestBudget.ExactTestBudget | internal/reconcile/test.go:134-163 | With tests on, if every upgrade succeeds, its tests fail and every rollback succeeds, exactly retries plus one attempts upgrade and test, all but the last are rolled back, the last exactly if the last failure must be remediated, the last reports exceeded retries, and none of any number of later attempts runs anything. |
| TestBudget.TestBreaks | internal/reconcile/test.go:200-217 | Failed tests of a new release are recorded and counted, and keep its rollback target. |
| TestBudget.AdverseTestsExist | internal/reconcile/test.go:72-132 | Every managed, deployed release of another chart or values can meet such an upgrade, failing tests of any selected name, and such a rollback. |
| TestBudget.TestCampaignExists | internal/reconcile/test.go:72-132 | There are such campaigns of any length up to retries plus one. |
| Coherence.HistoryAgreesWithStorage | internal/reconcile/release.go:77-148 | Through every sequence of attempts at any requests that no other writer disturbs, in which Helm behaves and crashes, wherever they happen, separate no write from its recording, the latest snapshot matches the last release in storage, and no release with a recorded history is found unmanaged. |
| Coherence.BatchHeals | internal/reconcile/release.go:77-112 | Recording a batch with a new greatest version makes history and storage agree, whatever the snapshots said of the version that was last. |
| Coherence.ObserveAllKeeps | internal/reconcile/rollback_remediation.go:187-206 | Following tame writes one by one keeps history and storage coherent, for the rollback, uninstall, unlock and test observers. |
| Coherence.ObserverContract | internal/reconcile/rollback_remediation.go:187-206 | A write of a recorded release updates its first snapshot, which keeps its artifact digest and, but for an unlock, its test results, and changes nothing else. |
| Coherence.ObserverIgnores | internal/reconcile/uninstall.go:229-250 | A write of a release that is not recorded adds a snapshot in a rollback and does nothing otherwise. |
| Coherence.TestObserverContract | internal/reconcile/test.go:200-217 | Test results are taken for the latest release only. |
| Coherence.BatchKeeps | internal/reconcile/release.go:77-112 | Recording a batch whose greatest version is new keeps history and storage coherent. |
| Coherence.OlderVerifiesExactly | internal/reconcile/release.go:98-110 | Exactly when a release recorded before a batch still verifies after it: it was not deleted, and if it was rewritten as something else, no newer recorded release was written. |
| Coherence.RefreshedExactly | internal/reconcile/release.go:98-110 | A recorded snapshot is refreshed if and only if it is the newest one that the batch wrote. |
| Coherence.ExecuteAgrees | internal/storage/observer.go:81-115 | Every action with a behaved Helm run keeps history and storage coherent. |
| Coherence.NeverUnmanaged | internal/reconcile/state.go:126-146 | Where history and storage agree, a non-empty history is never classified as unmanaged. |
| Coherence.DecisionPrefix | internal/reconcile/atomic_release.go:348-545 | A decision leaves the history alone, drops it for an unmanaged release, or cuts it to a non-empty prefix of its sort. |
| Recovery.RollbackGoesToVerifiedTarget | internal/reconcile/atomic_release.go:546-572 | Whenever a rollback is decided in a run from an empty status, with any requests, crashes and other writers and a Helm that behaved so far, the target verified after truncation is the one the rollback recomputes: strictly older than the latest, deployed or superseded, free of failed tests unless ignored, in storage and verified. |
| Recovery.LockedIsUnlockedFirst | internal/reconcile/state.go:103-124 | A pending or uninstalling last release, whoever left it, makes unlock the next action unless an unlock has run already. |
| Recovery.UnlockRecovers | internal/reconcile/unlock.go:64-94 | After an unlock, for every history, the state is failed if the latest snapshot targets the release or verifies against it nevertheless, unmanaged otherwise, and never locked. |
| Recovery.LegacyTakenForAny | internal/action/verify.go:134-163 | A snapshot of an older format, of version 1, makes an unlocked release of version 2 be found failed instead of unmanaged. |
| Recovery.CrashRecovers | internal/reconcile/unlock.go:161-175 | After any run from an empty status, an attempt that finds a pending or uninstalling release has unlock as its first event, and in its second finds the release failed exactly if the latest snapshot targets it, unmanaged otherwise. |
| Tidiness.SnapshotsGenuine | internal/release/observation.go:164-182 | In every run from an empty status, every snapshot is of the current format, its digest is of the release it names, and its status, chart and values digest are those of that release. |
| Tidiness.HistoryTidy | internal/reconcile/release.go:77-148 | Through every sequence of attempts at any requests for a release, with crashes and other writers, snapshots stay genuine and their versions distinct as long as Helm behaves in the actions that are completed. |
| Tidiness.UpgradeFromLatest | internal/reconcile/state.go:126-146 | An upgrade starts from no history, or from one whose latest snapshot is of the last release in storage. |
| Tidiness.HistoryHeals | internal/reconcile/release.go:77-148 | In every run from an empty status, whatever writes crashes lost and others made, the first install or upgrade that writes makes history and storage agree again as long as Helm behaves. |
| Recovery.ReleaseErrorContract | internal/reconcile/install.go:94-125 | Install and upgrade return an error exactly if Helm failed without a write, which leaves the storage as it was, and count against their retries exactly if it failed after one. |
| Recovery.RollbackErrorContract | internal/reconcile/rollback_remediation.go:96-110 | A rollback returns an error only if the latest digest is unchanged, and does if Helm failed and it is. |
| Recovery.UninstallErrorContract | internal/reconcile/uninstall_remediation.go:93-126 | An uninstall remediation returns an error exactly if there is no latest snapshot or its digest is unchanged. |
| Recovery.RollbackErrorKeepsLast | internal/reconcile/reconcile.go:96-101 | With coherent history and a behaved Helm, a rollback that returns an error left the last release in storage the same. |
| Lifecycle.InstallStartsOver | internal/reconcile/install.go:81-102 | In every run from an empty status, with crashes, an object whose last attempted action is an install has at most one snapshot. |
| Lifecycle.NoRollbackCrossesInstall | internal/reconcile/atomic_release.go:436-442 | Every version in the history was recorded by the most recent completed install or history clear or after it, where an install or upgrade records the one version it puts on top and a rollback those it writes, and so is every version rolled back to, for every environment and any crashes. |
| Lifecycle.EarlierLifeExcluded | internal/reconcile/install.go:81-102 | No version that was in storage before an install or an adopting upgrade with a behaved Helm, the replaced or adopted release included, is among those recorded by it. |
| Lifecycle.StoredNotAdded | internal/reconcile/release.go:77-112 | No action with a behaved Helm, other than a rollback that writes it again, adds a version that was in storage to the history. |
| Lifecycle.NoRollbackCrossesCutInstall | internal/reconcile/install.go:81-102 | Where only the controller writes, Helm behaves in the actions that are completed and crashes may cut any action short after any of its writes, a rollback goes to a version recorded, or stored that was not stored before, at or after the most recent install, even one that was cut short once the last release was not what it was, when older snapshots are still recorded. An install is only taken not to mark the release it replaces as pending. |
| Lifecycle.EarlierLifeNotGained | internal/reconcile/install.go:81-102 | The versions allowed by that result exclude every one that was in storage before an install or adopting upgrade. |
| Lifecycle.EarlierLifeNotCut | internal/reconcile/install.go:81-102 | The same for an install that is cut short once it has started over. |
| Lifecycle.InstallCut | internal/reconcile/install.go:81-102 | An install cut short once the last release is not what it was leaves a history that the controller will drop, or no recorded release in storage but what it stored anew. |
| Lifecycle.ReplacingCut | internal/action/install.go:88-99 | An install over a kept release that is cut short after marking that release as superseded leaves older snapshots recorded, and a history that will be dropped. |
| Lifecycle.RewrittenDropped | internal/reconcile/state.go:126-146 | Every event on a release that was rewritten behind the latest snapshot finds it unmanaged and drops the history. |
| Completion.CompletionSound | internal/reconcile/atomic_release.go:218-250 | A reconciliation returns without an error only if in sync, drifted without correction, or about to repeat a type of action with no active retry and an exhausted active remediation. |
| Completion.CompletionFixedPoint | internal/reconcile/atomic_release.go:348-419 | In the first two cases, reconciling again on the same storage and cluster runs nothing, completes, and leaves the whole status as it is. |
| Completion.CompletionIsLasting | internal/controller/helmrelease_controller.go:404-462 | After an attempt that left nothing to be done, any number of attempts at the same request that meet the same cluster run nothing, complete, and change nothing of what survives them. |
| Completion.DeployedStateAgain | internal/reconcile/state.go:164-188 | Rewriting the observed digests with the canonical algorithm does not change the state. |
| Completion.ReleaseCompletes | internal/reconcile/atomic_release.go:218-250 | Where history and storage agree and an install or upgrade is decided with tests off, at whatever point of a reconciliation, a Helm that makes the release asked for ends it without an error, in sync. |
| Progress.TwoAttemptsSync | internal/reconcile/atomic_release.go:169-334 | From every world in which history and storage agree and the state can be told, with tests off, retries left and a failure, if there is one, that can be remediated, at most two attempts that are left alone with a Helm that works end in sync, through unlocking, remediating and releasing. |
| Progress.FailedSettles | internal/reconcile/atomic_release.go:502-577 | A failed release is in sync after one reconciliation, or remediated so that the next one gets it there. |
| Progress.UninstalledIsInstalled | internal/reconcile/atomic_release.go:313-317 | An upgrade whose failures are remediated by uninstalling, used up or not, is uninstalled and asks for another round, and with install retries left and a working Helm the next attempt installs and ends in sync. |
| Snapshots.SortUnique | api/v2/snapshot_types.go:66-70 | For distinct versions, every descending permutation is the sort. |
| Snapshots.LatestUnique | api/v2/snapshot_types.go:73-79 | The latest snapshot is the one no other exceeds, and conversely. |
| Snapshots.PreviousExact | api/v2/snapshot_types.go:85-99 | The previous snapshot is the greatest version below the latest that is deployed or superseded and has no failed test unless ignored, and conversely. |
| Snapshots.TruncateKeeps | api/v2/snapshot_types.go:104-126 | Truncation leaves a prefix of the sort, keeps latest and previous, ends at the previous or keeps the five newest, and is idempotent. |
| Snapshots.TruncateIgnoringKeepsGreatest | api/v2/snapshot_types.go:130-135 | Keeps exactly the five greatest versions. |
| Recording.RecordBatch | internal/reconcile/release.go:77-112 | A batch with a new greatest version makes it the latest, keeps versions distinct, and keeps subject, artifact digest and test hooks of every older snapshot. |
| Recording.RecordShape | internal/reconcile/release.go:98-110 | At most one older snapshot is refreshed, with what was observed of its version; everything else is unchanged. |
| Recording.RefreshedIsNewest | internal/reconcile/release.go:68-75 | The refreshed snapshot is the newest one that the batch observed and the history targets. |
| Releases.SnapshotVerifiesExactly | internal/action/verify.go:134-163 | A snapshot verifies against exactly the releases equal to the observed one up to test hooks. |
| Releases.TestsDoNotDisturb | internal/release/observation.go:46-57 | Rewriting test hooks does not change what is observed. |
| Releases.ObservationExactly | internal/release/observation.go:109-160 | Two releases look the same exactly if they differ in test hooks only. |
| Releases.WithoutTestsExactly | internal/release/observation.go:46-57 | What is observed of hooks is those that are not tests, each as often as it is there. |
| Releases.SelectedExactly | internal/release/observation.go:206-224 | A test is selected exactly if no exclusion names it and, where there are inclusions, one does. |
| Releases.SelectedTestsExactly | internal/release/observation.go:186-224 | A test has a result exactly if a hook of that name is a selected test, and it is that of the last such hook. |
| State.DetermineSorted | internal/reconcile/state.go:110-228 | Sorting the history does not change the classification. |
| Classification.StateMeans | internal/reconcile/state.go:110-228 | The state is a given one if and only if the release, the latest snapshot, the request and the observed digests are as that state means, spelled out for all eight states without the functions that compute it. |
| Classification.StateUnknown | internal/reconcile/state.go:110-228 | The state cannot be told if and only if storage cannot be read, a managed release is superseded or unknown, or drift cannot be looked for. |
| Classification.CompletionDelivers | internal/reconcile/atomic_release.go:218-250 | In every run from an empty status, with any requests, crashes and other writers, a reconciliation that completes with nothing left to do leaves a release deployed with the chart, chart version and values asked for. |
| Decisions.FailedDecidesExactly | internal/reconcile/atomic_release.go:502-577 | For a failed release, each action and each error is decided if and only if the spec and the status call for it: upgrade, rollback, uninstall, exceeded retries, missing rollback target, unreadable storage and unknown strategy. |
| Decisions.FailedHistory | internal/reconcile/atomic_release.go:502-577 | What that decision leaves of the history: the five newest snapshots if retried, those down to the target if remediated, all otherwise. |
| Decisions.OtherDecidesExactly | internal/reconcile/atomic_release.go:348-501 | What is decided for every other state, by retries, force request and drift mode. |
| Decisions.OtherHistory | internal/reconcile/atomic_release.go:348-501 | What those decisions leave of the history. |
| Decisions.DecisionRemembers | internal/reconcile/atomic_release.go:337-347 | A decision remembers the force request it met, and changes nothing else but the history. |
| Decisions.UninstallsOnlyAsConfigured | internal/reconcile/atomic_release.go:546-577 | Whenever an uninstall remediation is run, the release was failed with a failure that counts, and the strategy for what was last done is to uninstall. |
| Decisions.UntestedIsTested | internal/reconcile/atomic_release.go:484-501 | A release deployed as asked whose tests were not run is tested next, whatever the retries. |
| Outcomes.ReleaseContract | internal/reconcile/install.go:94-158 | The result, the counters, the last action and the observed digests after an install or upgrade, for every run of Helm: failures count by what was written, and a success under a retry strategy clears the counters. |
| Outcomes.ReleaseIsRecorded | internal/reconcile/release.go:77-112 | The release an install or upgrade made is recorded with the attempted artifact digest, the action and no test results. |
| Outcomes.TestCounts | internal/reconcile/test.go:72-163 | The counter of what was last done rises by one exactly if the tests failed or were of another release, results are recorded and failures are not ignored; the other counter never changes. |
| Outcomes.RemediationCounts | internal/reconcile/rollback_remediation.go:133-139 | Remediations, unlocks and drift corrections never count against retries and keep the last attempted action. |
| Outcomes.UninstallCounts | internal/reconcile/uninstall_remediation.go:93-126 | Result and failure count of an uninstall remediation by what Helm did and whether the digest changed. |
| Outcomes.RollbackCounts | internal/reconcile/rollback_remediation.go:96-139 | Result and failure count of a rollback by whether Helm failed and the digest changed. |
| Outcomes.RollbackRefuses | internal/reconcile/rollback_remediation.go:75-96 | A rollback without a target, or to another release, is not run and changes no storage. |
| Outcomes.NothingToActOn | internal/reconcile/test.go:72-90 | Without a snapshot, a test or uninstall remediation is an error and changes nothing. |
| Outcomes.UnlockContract | internal/reconcile/unlock.go:64-94 | An unlock rewrites a pending release as failed and nothing else, or fails and is counted. |
| Outcomes.ReconcileAnswers | internal/reconcile/atomic_release.go:176-333 | What a reconciliation answers follows from its last event, the spec and the counters, unless an action called for another turn that was interrupted or could not tell the state. |
| Outcomes.RemediedReports | internal/reconcile/atomic_release.go:303-323 | A reconciliation that ends with a remediation that came off reports exceeded retries exactly if there is no retry, the failures are above a non-negative limit and it is not an upgrade that was uninstalled. |
| Requests.HandleRequest | api/v2beta2/annotations.go:67-84 | Whether a request is honoured, and the token remembered, which is the request's even if it is not honoured. |
| Requests.HonouredAtMostOnce | api/v2beta2/annotations.go:67-84 | A constant request is honoured at most once over any number of polls, and never if it was the one remembered. |
| Requests.SecondAttemptResets | internal/action/reset.go:42-70 | After an attempt, whatever happened to the rest of the status, another one clears all three counters if generation, chart version or values differ or a reset is requested anew, which then carries a new token, and leaves all three alone otherwise. |
| Requests.FirstAttemptResets | internal/action/reset.go:55-63 | The same for a status of an older controller, which has a checksum of the values or nothing. |
| Runs.AttemptResets | internal/controller/helmrelease_controller.go:404-416 | The same between any attempt, however it ends or crashes, and the request of the next one. |
| Requests.NothingPendingOnceHandled | internal/controller/helmrelease_controller.go:149-151 | Once the request to reconcile is recorded, no force or reset request that came with it is pending, and nothing else changed. |
| Requests.PrepareSettles | internal/controller/helmrelease_controller.go:404-416 | Recording an attempt twice is recording it once. |
| Objects.SnapshotHistory.SortByVersion | api/v2/snapshot_types.go:66-70 | The in-place sort leaves the specified sort. |
| Objects.SnapshotHistory.Latest | api/v2/snapshot_types.go:73-79 | Answers the latest snapshot and leaves the history sorted. |
| Objects.SnapshotHistory.Previous | api/v2/snapshot_types.go:85-99 | Answers the previous snapshot and leaves the history sorted. |
| Objects.SnapshotHistory.Truncate | api/v2/snapshot_types.go:104-126 | Leaves the specified truncation. |
| Objects.SnapshotHistory.TruncateIgnoringPreviousSnapshots | api/v2/snapshot_types.go:130-135 | Leaves the five most recent snapshots. |
| Objects.SnapshotHistory.RecordObserved | internal/reconcile/release.go:77-112 | The two nested loops leave the specified record of a batch. |
| Objects.SnapshotHistory.ObserveRollback | internal/reconcile/rollback_remediation.go:187-206 | Replaces the targeted snapshot or prepends a new one. |
| Objects.SnapshotHistory.ObserveUninstall | internal/reconcile/uninstall.go:229-250 | Replaces the targeted snapshot, if any, keeping its test hooks. |
| Objects.SnapshotHistory.ObserveUnlock | internal/reconcile/unlock.go:161-175 | Replaces the targeted snapshot, if any, dropping its test hooks. |
| Objects.SnapshotHistory.ObserveTest | internal/reconcile/test.go:200-217 | Replaces the latest snapshot with its test results if it is the tested release. |
| Objects.SortedVersions | internal/reconcile/release.go:68-74 | The observed versions, strictly descending. |
| Objects.ObservingDriver.Perform | internal/storage/observer.go:81-115 | A write that the driver fails leaves no trace; one that succeeds is applied and observed. |
| Objects.ObservingDriver.PerformAll | internal/storage/observer.go:81-115 | Storage and observations reflect exactly the writes that succeeded, in order. |
| Objects.IgnoreHookTestEvents | internal/release/observation.go:46-57 | Keeps exactly the hooks that are not test hooks, in order. |
| Objects.IsTestHookSelected | internal/release/observation.go:206-224 | Selected if no exclusion names the hook and an inclusion does, where there are any. |
| Reconcilers.HelmRelease.RecordAttempt | internal/controller/helmrelease_controller.go:404-416 | Clears the counters when required and records the attempt. |
| Reconcilers.HelmRelease.MustResetFailures | internal/action/reset.go:42-70 | Whether the counters must be cleared, by generation, chart version, values digest or deprecated values checksum, or reset request. |
| Reconcilers.HelmRelease.FinishAttempt | internal/controller/helmrelease_controller.go:149-151 | Records the request to reconcile that the attempt met. |
| Reconcilers.HelmRelease.ObservePostRenderers | internal/reconcile/release.go:273-282 | Records the digests of the spec with the canonical algorithm. |
| Reconcilers.Install | internal/reconcile/install.go:71-126 | Leaves the object, storage and result that the specification of an install gives. |
| Reconcilers.Upgrade | internal/reconcile/upgrade.go:67-117 | The same for an upgrade. |
| Reconcilers.Test | internal/reconcile/test.go:72-163 | The same for a test. |
| Reconcilers.Rollback | internal/reconcile/rollback_remediation.go:75-111 | The same for a rollback. |
| Reconcilers.UninstallRemediation | internal/reconcile/uninstall_remediation.go:80-127 | The same for an uninstall remediation. |
| Reconcilers.Unlock | internal/reconcile/unlock.go:64-94 | The same for an unlock. |
| Reconcilers.DetermineReleaseState | internal/reconcile/state.go:110-228 | Answers the specified state and leaves the history sorted where it was looked at. |
| Reconcilers.DecideForFailed | internal/reconcile/atomic_release.go:502-577 | Leaves the specified decision for a failed release. |
| Reconcilers.DecideAction | internal/reconcile/atomic_release.go:337-581 | Leaves the specified decision and status. |
| Reconcilers.TakeTurn | internal/reconcile/atomic_release.go:177-332 | One turn of the loop, with all its ways to stop. |
| Reconcilers.ReconcileRelease | internal/reconcile/atomic_release.go:169-334 | The loop terminates and leaves the world and result of the specified run, so every theorem about runs holds of it. |
| Summary.FirstExactly | internal/reconcile/release.go:229-241 | The summary condition of highest priority is sorted first for every input order if and only if no summary condition has a later generation. |
| Summary.OrderDecides | internal/reconcile/release.go:229-241 | Released of generation 2 and Remediated of generation 1 are sorted in whichever order they come. |
| Summary.ReadySummary | internal/reconcile/release.go:243-260 | Ready reflects that condition and nothing else, Stalled is removed exactly when Ready becomes True, and every other condition stays. |
| Summary.ReadyMeans | internal/reconcile/release.go:212-261 | With distinct types and equal generations, Ready is False whenever Remediated is present, else copies TestSuccess if tests count, else Released; TestSuccess goes if tests are off, Stalled if Ready becomes True, and every other condition stays. |
| Summary.Conditions.SortStable | internal/reconcile/release.go:229-241 | The in-place sort leaves the specified sort. |
| Summary.Conditions.Summarize | internal/reconcile/release.go:212-261 | Leaves the specified summary. |
| LogRing.EncodingUnique | internal/action/log.go:238-253 | Any two alternating lists of runs that expand to the same messages agree on messages and counts. |
| LogRing.RunsExpand | internal/action/log.go:238-253 | The runs of a log expand to its messages, and neighbours differ: they are its run-length encoding. |
| LogRing.RunsTimed | internal/action/log.go:238-253 | Each run has the time of its first entry and, if repeated, of its last. |
| LogRing.LogRingBuffer.Append | internal/action/log.go:233-257 | After any appends the traversal is exactly the last N runs, each with its repetitions and times. |
| LogRing.LogRingBuffer.Empty | internal/action/log.go:261-280 | Empty exactly if every retained run is of the empty message. |
| ChartRef.RoundTripExactly | api/v2/helmrelease_types.go:1446-1473 | A reference survives being stored and parsed if and only if kind, namespace and name contain no slash. |
| ChartRef.TemplateStep | internal/reconcile/helmchart_template.go:78-183 | One reconciliation leaves no orphaned chart if and only if it is not a suspended object applying a chart other than its present one. |
| ChartRef.SuspendedLeavesBehind | internal/reconcile/helmchart_template.go:78-183 | A suspended object whose chart changes from "a" to "b" is left with both. |
| ChartRef.NeverOrphans | internal/reconcile/helmchart_template.go:78-223 | While not suspended, no sequence of template changes and API failures leaves a chart the status does not name. |
| ChartRef.TemplateIsApplied | internal/reconcile/helmchart_template.go:78-183 | With nothing failing, an object that is not suspended ends up owning exactly the chart of its template, and naming it. |
| ChartRef.ChartIsDeleted | internal/reconcile/helmchart_template.go:186-223 | With nothing failing, the chart of an object that is deleted or has no template is deleted. |
| ChartRef.NamedIsDeleted | internal/reconcile/helmchart_template.go:186-223 | What the status of a deleted object names is deleted, as a HelmChart unless it is an OCIRepository. |
| ChartRef.OtherNamespacesAlone | internal/reconcile/helmchart_template.go:78-223 | Charts in other namespaces are neither made nor deleted unless allowed. |
| ChartRef.NothingChanges | internal/reconcile/helmchart_template.go:78-223 | Nothing changes if the object is suspended and deleted, or the calls to read and to apply fail. |
| ChartRef.HelmChartTemplate.Reconcile | internal/reconcile/helmchart_template.go:78-183 | Leaves the specified charts and status field. |
| ChartRef.HelmChartTemplate.ReconcileDelete | internal/reconcile/helmchart_template.go:186-223 | Deletes the chart the status names and clears the field, or changes nothing and fails. |

## Left out

- Helm itself: rendering, hooks, applying and waiting are represented by the writes of an action and its result.
- Storage drivers: the storage is a map; only the success or failure of a write is modelled.
- Hashing and encoding: digests are symbolic, so encoding errors and collisions do not occur.
- Counter width: counters are unbounded integers, not 64-bit.
- Events, log text, messages, timestamps other than those of log lines, intervals and metrics: no decision reads them.
- Conditions in the loop: Ready, Reconciling and the others are modelled in `Summary` only, since no decision of the loop reads them; `replaceCondition` and the markers in `Reconcile` are not modelled.
- Condition types are compared exactly; the source compares them ignoring case.
- The order in which the conditions library keeps conditions after setting one is not modelled; the summary does not depend on it.
- Uninstalling on deletion, and the uninstall that follows a change of the release target: runs are for one release name and namespace.
- `meta.HandleAnnotationRequest` of the shared Flux library: the token protocol follows `handleRequest` of the v2beta2 API.
- Library sorts of histories with repeated versions longer than twelve, and of more than twenty conditions: insertion sort is what the library does up to those lengths.
- Drift: the comparison with the cluster is an answer of the environment, and correcting drift changes neither status nor storage.
- `logLine.String` and `logRingBuffer.String`: formatting only.
- Locking in the ring buffer: appends are taken one at a time.
- Building chart objects from the template, server-side apply options and ownership labels: an applied chart is its reference.
- Artifact handling, dependencies, impersonation, custom resource definitions, inventory and the v1beta APIs.
