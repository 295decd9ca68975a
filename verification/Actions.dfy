/** The action reconcilers, as functions from the status and the storage before
    an action to those after it (internal/reconcile/install.go, upgrade.go,
    test.go, rollback_remediation.go, uninstall_remediation.go, unlock.go,
    correct_cluster_drift.go). What Helm does is a parameter. */
module Actions {
  import opened Api
  import opened Snapshots
  import opened Releases
  import opened Recording
  import opened State

  datatype World = World(status: Status, storage: Storage)

  /** One run of a Helm action: the writes that succeeded, in order, whether it
      returned an error, and the release it says it acted on. */
  datatype HelmRun = HelmRun(writes: seq<Write>, failed: bool, target: Option<Release>)

  datatype ActionError = HelmError | NoLatest | ReleaseMismatch | MissingTarget | NoStorageUpdate | StorageError

  /** A panic stands for the dereference of a nil snapshot or configuration. */
  datatype ActionResult = Ok | Err(error: ActionError) | Panic

  datatype Acted = Acted(world: World, result: ActionResult)

  datatype Action =
    | Install
    | Upgrade
    | Test
    | Rollback
    | UninstallRemediation
    | Unlock
    | CorrectDrift

  datatype ReconcilerType = TypeRelease | TypeRemediate | TypeTest | TypeUnlock | TypeDrift

  function TypeOf(a: Action): ReconcilerType {
    match a
    case Install => TypeRelease
    case Upgrade => TypeRelease
    case Test => TypeTest
    case Rollback => TypeRemediate
    case UninstallRemediation => TypeRemediate
    case Unlock => TypeUnlock
    case CorrectDrift => TypeDrift
  }

  /** observePostRenderers. */
  function ObserveSpec(req: Request, st: Status): Status {
    st.(postRenderersDigest := SpecDigest(req.spec.postRenderers, req.canonical),
        commonMetadataDigest := SpecDigest(req.spec.commonMetadata, req.canonical))
  }

  function CountFailure(st: Status): Status {
    st.(failures := st.failures + 1)
  }

  /** The common end of install and upgrade, after Helm ran and the observed
      releases were recorded. `retry` is set if the strategy is to retry. */
  function FinishRelease(req: Request, st: Status, sto: Storage, r: Remediation, retry: bool, helm: HelmRun): Acted {
    if helm.failed then
      var st1 := CountFailure(st);
      if helm.writes == [] then Acted(World(st1, sto), Err(HelmError))
      else Acted(World(r.IncrementFailureCount(st1), sto), Ok)
    else if st.history == [] then Acted(World(st, sto), Panic)
    else
      var st1 := st.(history := Sorted(st.history));
      Acted(World(ObserveSpec(req, if retry then st1.ClearFailures() else st1), sto), Ok)
  }

  function RunInstall(req: Request, w: World, helm: HelmRun): Acted {
    var h := Record(req.canonical, Observe(helm.writes), [], w.status.lastAttemptedRevisionDigest, ActionInstall);
    FinishRelease(req, w.status.(lastAction := ActionInstall, history := h), Apply(w.storage, helm.writes),
                  req.spec.installRemediation, MustRetry(req.spec.installStrategy, req.defaultToRetry), helm)
  }

  function RunUpgrade(req: Request, w: World, helm: HelmRun): Acted {
    var h := Record(req.canonical, Observe(helm.writes), w.status.history, w.status.lastAttemptedRevisionDigest,
                    ActionUpgrade);
    FinishRelease(req, w.status.(lastAction := ActionUpgrade, history := h), Apply(w.storage, helm.writes),
                  req.spec.upgradeRemediation, MustRetry(req.spec.upgradeStrategy, req.defaultToRetry), helm)
  }

  /** Observation.Targets, where version 0 stands for any version. */
  predicate Acts(r: Release, s: Snapshot) {
    r.name == s.name && r.ns == s.ns && (s.version == 0 || r.version == s.version)
  }

  predicate Mismatch(helm: HelmRun, cur: Snapshot) {
    helm.target.Some? && !Acts(helm.target.value, cur)
  }

  /** Test.failure: the active remediation counts the failure if results were
      observed and failures are not ignored. `tested` says the former. */
  function CountTestFailure(req: Request, st: Status, tested: bool): Status {
    var st1 := CountFailure(st);
    var active := ActiveRemediation(req, st);
    if tested && active.Some? && !active.value.MustIgnoreTestFailures(req.spec.testIgnoreFailures)
    then active.value.IncrementFailureCount(st1) else st1
  }

  function RunTest(req: Request, w: World, helm: HelmRun): Acted {
    if w.status.history == [] then Acted(w, Err(NoLatest)) else
      var cur := Latest(w.status.history).value;
      var h := ObserveAll(req.canonical, TestObserver(req.spec.testFilters), Sorted(w.status.history), helm.writes);
      var st := w.status.(history := Sorted(h));
      var sto := Apply(w.storage, helm.writes);
      if helm.failed || Mismatch(helm, cur) then
        var tested := Latest(h).Some? && Latest(h).value.HasBeenTested();
        var result := if tested then Ok else Err(if Mismatch(helm, cur) then ReleaseMismatch else HelmError);
        Acted(World(CountTestFailure(req, st, tested), sto), result)
      else Acted(World(st, sto), Ok)
  }

  /** The snapshot a rollback passes to Helm. */
  function RollbackTarget(req: Request, st: Status): Option<Snapshot> {
    Previous(st.history, req.spec.upgradeRemediation.MustIgnoreTestFailures(req.spec.testIgnoreFailures))
  }

  predicate SameDigest(h: seq<Snapshot>, cur: Snapshot) {
    Latest(h).None? || Latest(h).value.digest == cur.digest
  }

  /** The end of a rollback that was run. */
  function FinishRollback(st: Status, sto: Storage, helm: HelmRun, cur: Snapshot): Acted {
    if helm.failed then
      Acted(World(CountFailure(st.(history := Sorted(st.history))), sto), if SameDigest(st.history, cur) then Err(HelmError) else Ok)
    else Acted(World(st, sto), Ok)
  }

  function RunRollback(req: Request, w: World, helm: HelmRun): Acted {
    var st := w.status.(history := Sorted(w.status.history));
    var prev, cur := RollbackTarget(req, w.status), Latest(w.status.history);
    if prev.None? || cur.None? then Acted(World(st, w.storage), Err(MissingTarget))
    else if prev.value.name != cur.value.name || prev.value.ns != cur.value.ns then
      Acted(World(st, w.storage), Err(ReleaseMismatch))
    else
      var h := ObserveAll(req.canonical, RollbackObserver, st.history, helm.writes);
      FinishRollback(st.(history := h), Apply(w.storage, helm.writes), helm, cur.value)
  }

  /** The end of an uninstall remediation. `same` says that the digest of the
      latest snapshot is what it was. */
  function FinishUninstall(st: Status, sto: Storage, helm: HelmRun, mismatch: bool, same: bool): Acted {
    if helm.failed || mismatch then
      Acted(World(CountFailure(st), sto), if !same then Ok else Err(if mismatch then ReleaseMismatch else HelmError))
    else if same then Acted(World(CountFailure(st), sto), Err(NoStorageUpdate))
    else Acted(World(st, sto), Ok)
  }

  function RunUninstallRemediation(req: Request, w: World, helm: HelmRun): Acted {
    if w.status.history == [] then Acted(w, Err(NoLatest)) else
      var cur := Latest(w.status.history).value;
      var h := ObserveAll(req.canonical, UninstallObserver(ActionUninstallRemediation), Sorted(w.status.history), helm.writes);
      FinishUninstall(w.status.(history := Sorted(h)), Apply(w.storage, helm.writes), helm, Mismatch(helm, cur), SameDigest(h, cur))
  }

  /** The release as unlocking writes it. */
  function Unlocked(r: Release): Release {
    r.(status := StatusFailed, description := "Release unlocked from stale '" + r.status.Text() + "' state")
  }

  /** `helm.failed` says that the update of the storage fails. */
  function RunUnlock(req: Request, w: World, down: bool, helm: HelmRun): Acted {
    var last := Last(w.storage, req.spec.name);
    if down then Acted(w, Err(StorageError))
    else if last.None? || !IsLocked(last.value.status) then Acted(w, Ok)
    else if helm.failed then Acted(World(CountFailure(w.status), w.storage), Err(StorageError))
    else
      var r := Unlocked(last.value);
      Acted(World(w.status.(history := ObserveUnlock(req.canonical, w.status.history, r)), ApplyOne(w.storage, Put(r))), Ok)
  }

  function Execute(req: Request, a: Action, w: World, down: bool, helm: HelmRun): Acted {
    match a
    case Install => RunInstall(req, w, helm)
    case Upgrade => RunUpgrade(req, w, helm)
    case Test => RunTest(req, w, helm)
    case Rollback => RunRollback(req, w, helm)
    case UninstallRemediation => RunUninstallRemediation(req, w, helm)
    case Unlock => RunUnlock(req, w, down, helm)
    case CorrectDrift => Acted(w, Ok)
  }
}
