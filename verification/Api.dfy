/** The HelmRelease API (api/v2): the values the reconcilers read and write.

    Digests are symbolic: the digest of a value is a term that carries the
    algorithm and the value, so it is collision-free by construction. */
module Api {
  datatype Option<+T> = None | Some(value: T)

  /** Status of a release in the Helm storage. */
  datatype HelmStatus =
    | StatusUnknown
    | Deployed
    | Uninstalled
    | Superseded
    | StatusFailed
    | Uninstalling
    | PendingInstall
    | PendingUpgrade
    | PendingRollback
  {
    predicate IsPending() {
      PendingInstall? || PendingUpgrade? || PendingRollback?
    }

    function Text(): string {
      match this
      case StatusUnknown => "unknown"
      case Deployed => "deployed"
      case Uninstalled => "uninstalled"
      case Superseded => "superseded"
      case StatusFailed => "failed"
      case Uninstalling => "uninstalling"
      case PendingInstall => "pending-install"
      case PendingUpgrade => "pending-upgrade"
      case PendingRollback => "pending-rollback"
    }
  }

  datatype ReleaseAction =
    | ActionNone
    | ActionInstall
    | ActionUpgrade
    | ActionRollback
    | ActionUninstall
    | ActionUninstallRemediation

  type Values = string

  datatype Digest<+T> = Digest(algorithm: string, content: T) | Unparsable(text: string)

  const NO_DIGEST: Digest<string> := Unparsable("")

  datatype Phase = PhaseUnknown | PhaseRunning | PhaseSucceeded | PhaseFailed

  datatype Hook = Hook(name: string, test: bool, phase: Phase)

  /** A release object in the Helm storage. `info` stands for all other recorded
      data (manifest, timestamps, notes). */
  datatype Release = Release(
    name: string, ns: string, version: int, status: HelmStatus,
    chartName: string, chartVersion: string, config: Values,
    description: string, info: string, hooks: seq<Hook>)

  /** A detached copy of a release as seen to be written to storage. */
  datatype Observation = Observation(
    name: string, ns: string, version: int, status: HelmStatus,
    chartName: string, chartVersion: string, config: Values,
    description: string, info: string, hooks: seq<Hook>, oci: string, action: ReleaseAction)

  type TestHooks = map<string, Phase>

  const CURRENT_API_VERSION := "v2"

  datatype Snapshot = Snapshot(
    apiVersion: string, digest: Digest<Observation>,
    name: string, ns: string, version: int, status: HelmStatus,
    action: ReleaseAction, chartName: string, chartVersion: string,
    configDigest: Digest<Values>, testHooks: Option<TestHooks>, oci: string)
  {
    predicate Targets(n: string, s: string, v: int) {
      name == n && ns == s && version == v
    }

    predicate HasTestInPhase(phase: Phase) {
      testHooks.Some? && exists k | k in testHooks.value :: testHooks.value[k] == phase
    }

    predicate HasBeenTested() {
      testHooks.Some? &&
      (HasTestInPhase(PhaseFailed) ||
       forall k | k in testHooks.value :: testHooks.value[k] == PhaseSucceeded)
    }

    predicate Legacy() {
      apiVersion != CURRENT_API_VERSION
    }
  }

  datatype RemediationStrategy = RollbackStrategy | UninstallStrategy | OtherStrategy(text: string)

  /** The remediation configuration of an install or an upgrade. */
  datatype Remediation =
    | InstallRemediation(retries: int, ignoreTestFailures: Option<bool>, remediateLastFailure: Option<bool>)
    | UpgradeRemediation(retries: int, ignoreTestFailures: Option<bool>, remediateLastFailure: Option<bool>,
                         strategy: Option<RemediationStrategy>)
  {
    predicate MustIgnoreTestFailures(default: bool) {
      if ignoreTestFailures.None? then default else ignoreTestFailures.value
    }

    predicate MustRemediateLastFailure() {
      if remediateLastFailure.Some? then remediateLastFailure.value
      else UpgradeRemediation? && retries > 0
    }

    function GetStrategy(): RemediationStrategy {
      if InstallRemediation? then UninstallStrategy
      else if strategy.None? then RollbackStrategy
      else strategy.value
    }

    function FailureCount(st: Status): int {
      if InstallRemediation? then st.installFailures else st.upgradeFailures
    }

    function IncrementFailureCount(st: Status): Status {
      if InstallRemediation? then st.(installFailures := st.installFailures + 1)
      else st.(upgradeFailures := st.upgradeFailures + 1)
    }

    predicate RetriesExhausted(st: Status) {
      retries >= 0 && FailureCount(st) > retries
    }

    predicate IsUninstallAfterUpgrade() {
      UpgradeRemediation? && GetStrategy() == UninstallStrategy
    }
  }

  type InstallRemediationSpec = r: Remediation | r.InstallRemediation?
    witness InstallRemediation(0, None, None)

  type UpgradeRemediationSpec = r: Remediation | r.UpgradeRemediation?
    witness UpgradeRemediation(0, None, None, None)

  datatype ActionStrategy = RemediateOnFailure | RetryOnFailure

  /** GetRetry: whether the configured (or defaulted) strategy is to retry. */
  predicate MustRetry(strategy: Option<ActionStrategy>, defaultToRetry: bool) {
    if strategy.None? then defaultToRetry else strategy.value.RetryOnFailure?
  }

  datatype Filter = Filter(name: string, exclude: bool)

  datatype DriftMode = DriftDisabled | DriftWarn | DriftEnabled

  datatype Spec = Spec(
    name: string, ns: string,
    installStrategy: Option<ActionStrategy>, installRemediation: InstallRemediationSpec,
    upgradeStrategy: Option<ActionStrategy>, upgradeRemediation: UpgradeRemediationSpec,
    testEnable: bool, testIgnoreFailures: bool, testFilters: seq<Filter>,
    driftMode: DriftMode,
    postRenderers: Option<string>, commonMetadata: Option<string>)
  {
    predicate MustDetectChanges() {
      driftMode.DriftEnabled? || driftMode.DriftWarn?
    }
  }

  /** What survives between reconciliations. The conditions are modelled apart,
      in module Summary, because no decision below reads them. The deprecated
      checksum of the values is held as the SHA-1 digest it is compared as. */
  datatype Status = Status(
    history: seq<Snapshot>,
    failures: int, installFailures: int, upgradeFailures: int,
    lastAction: ReleaseAction,
    postRenderersDigest: Digest<string>, commonMetadataDigest: Digest<string>,
    lastHandledForceAt: string, lastHandledResetAt: string, lastHandledReconcileAt: string,
    lastAttemptedGeneration: int, lastAttemptedRevision: string,
    lastAttemptedRevisionDigest: string, lastAttemptedConfigDigest: Digest<Values>,
    lastAttemptedValuesChecksum: Digest<Values>)
  {
    function ClearFailures(): Status {
      this.(failures := 0, installFailures := 0, upgradeFailures := 0)
    }

    function ClearHistory(): Status {
      this.(history := [])
    }
  }

  /** The status of an object that was never reconciled. */
  const EMPTY_STATUS := Status([], 0, 0, 0, ActionNone, NO_DIGEST, NO_DIGEST,
                               "", "", "", 0, "", "", Unparsable(""), Unparsable(""))

  datatype Annotations = Annotations(forceAt: Option<string>, resetAt: Option<string>, reconcileAt: Option<string>)

  /** What one reconciliation is asked to achieve. `canonical` is the digest
      algorithm the controller is configured with. */
  datatype Request = Request(
    spec: Spec, generation: int, annotations: Annotations,
    chartName: string, chartVersion: string, ociDigest: string, values: Values,
    canonical: string, defaultToRetry: bool)

  /** The remediation for what a release action left. */
  function RemediationFor(req: Request, a: ReleaseAction): Option<Remediation> {
    match a
    case ActionInstall => Some(req.spec.installRemediation)
    case ActionUpgrade => Some(req.spec.upgradeRemediation)
    case _ => None
  }

  /** Whether what a release action left is to be retried. */
  predicate RetryFor(req: Request, a: ReleaseAction) {
    match a
    case ActionInstall => MustRetry(req.spec.installStrategy, req.defaultToRetry)
    case ActionUpgrade => MustRetry(req.spec.upgradeStrategy, req.defaultToRetry)
    case _ => false
  }

  function ActiveRemediation(req: Request, st: Status): Option<Remediation> {
    RemediationFor(req, st.lastAction)
  }

  predicate ActiveRetry(req: Request, st: Status) {
    RetryFor(req, st.lastAction)
  }
}
