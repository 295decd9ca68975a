/** The action reconcilers and the atomic release loop as they run: on an object
    and a storage that they update in place (internal/reconcile). Every method
    is proved against the function that specifies it, so all that is proved of
    those functions holds of these runs. */
module Reconcilers {
  import opened Api
  import opened Releases
  import opened Recording
  import opened Requests
  import opened State
  import opened Actions
  import opened AtomicRelease
  import opened Objects
  import S = Snapshots

  class HelmRelease {
    const history: SnapshotHistory
    var failures: int
    var installFailures: int
    var upgradeFailures: int
    var lastAction: ReleaseAction
    var postRenderersDigest: Digest<string>
    var commonMetadataDigest: Digest<string>
    var lastHandledForceAt: string
    var lastHandledResetAt: string
    var lastHandledReconcileAt: string
    var lastAttemptedGeneration: int
    var lastAttemptedRevision: string
    var lastAttemptedRevisionDigest: string
    var lastAttemptedConfigDigest: Digest<Values>
    var lastAttemptedValuesChecksum: Digest<Values>

    function Value(): Status
      reads this, history
    {
      Status(history.items, failures, installFailures, upgradeFailures, lastAction,
             postRenderersDigest, commonMetadataDigest,
             lastHandledForceAt, lastHandledResetAt, lastHandledReconcileAt,
             lastAttemptedGeneration, lastAttemptedRevision, lastAttemptedRevisionDigest, lastAttemptedConfigDigest,
             lastAttemptedValuesChecksum)
    }

    constructor (st: Status)
      ensures Value() == st && fresh(history)
    {
      history := new SnapshotHistory(st.history);
      failures, installFailures, upgradeFailures := st.failures, st.installFailures, st.upgradeFailures;
      lastAction := st.lastAction;
      postRenderersDigest, commonMetadataDigest := st.postRenderersDigest, st.commonMetadataDigest;
      lastHandledForceAt, lastHandledResetAt := st.lastHandledForceAt, st.lastHandledResetAt;
      lastHandledReconcileAt := st.lastHandledReconcileAt;
      lastAttemptedGeneration, lastAttemptedRevision := st.lastAttemptedGeneration, st.lastAttemptedRevision;
      lastAttemptedRevisionDigest, lastAttemptedConfigDigest := st.lastAttemptedRevisionDigest, st.lastAttemptedConfigDigest;
      lastAttemptedValuesChecksum := st.lastAttemptedValuesChecksum;
    }

    method ClearFailures()
      modifies this
      ensures Value() == old(Value()).ClearFailures()
    {
      failures, installFailures, upgradeFailures := 0, 0, 0;
    }

    method IncrementFailureCount(r: Remediation)
      modifies this
      ensures Value() == r.IncrementFailureCount(old(Value()))
    {
      if r.InstallRemediation? {
        installFailures := installFailures + 1;
      } else {
        upgradeFailures := upgradeFailures + 1;
      }
    }

    /** Whether a force request must be honoured; its token is remembered. */
    method ShouldHandleForceRequest(req: Request) returns (forced: bool)
      modifies this
      ensures forced == ForceRequested(req, old(Value())) && Value() == RememberForce(req, old(Value()))
    {
      forced, lastHandledForceAt :=
        HandleRequest(req.annotations.forceAt, req.annotations.reconcileAt, lastHandledForceAt, lastHandledReconcileAt);
    }

    /** Whether the counters must be cleared; the token of a reset request is
        remembered either way. */
    method MustResetFailures(req: Request) returns (reset: bool)
      modifies this
      ensures reset == Requests.MustResetFailures(req, old(Value()))
      ensures Value() == old(Value()).(lastHandledResetAt := Remembered(req.annotations.resetAt, old(lastHandledResetAt)))
    {
      var requested;
      requested, lastHandledResetAt :=
        HandleRequest(req.annotations.resetAt, req.annotations.reconcileAt, lastHandledResetAt, lastHandledReconcileAt);
      var values := lastAttemptedConfigDigest;
      if values == Unparsable("") {
        values := lastAttemptedValuesChecksum;
      }
      reset := || lastAttemptedGeneration != req.generation
               || lastAttemptedRevision != req.chartVersion
               || (values != Unparsable("") && !VerifyValues(values, req.values))
               || requested;
    }

    /** Clears the counters when required, and records the attempt. */
    method RecordAttempt(req: Request)
      modifies this
      ensures Value() == Prepare(req, old(Value()))
    {
      var reset := MustResetFailures(req);
      if reset {
        ClearFailures();
      }
      lastAttemptedGeneration := req.generation;
      lastAttemptedRevision := req.chartVersion;
      lastAttemptedRevisionDigest := req.ociDigest;
      lastAttemptedConfigDigest := Digest(req.canonical, req.values);
      lastAttemptedValuesChecksum := Unparsable("");
    }

    /** Records the request to reconcile that an attempt met, in its end. */
    method FinishAttempt(req: Request)
      modifies this
      ensures Value() == Handled(req, old(Value()))
    {
      if req.annotations.reconcileAt.Some? {
        lastHandledReconcileAt := req.annotations.reconcileAt.value;
      }
    }

    method ObservePostRenderers(req: Request)
      modifies this
      ensures Value() == ObserveSpec(req, old(Value()))
    {
      postRenderersDigest := NO_DIGEST;
      if req.spec.postRenderers.Some? {
        postRenderersDigest := Digest(req.canonical, req.spec.postRenderers.value);
      }
      commonMetadataDigest := NO_DIGEST;
      if req.spec.commonMetadata.Some? {
        commonMetadataDigest := Digest(req.canonical, req.spec.commonMetadata.value);
      }
    }
  }

  /** The object and the storage as a value. */
  ghost function WorldOf(obj: HelmRelease, sto: HelmStorage): World
    reads obj, obj.history, sto
  {
    World(obj.Value(), sto.releases)
  }

  // ---------- Actions ----------

  /** The common end of install and upgrade. */
  method Finish(req: Request, obj: HelmRelease, ghost sto: HelmStorage, r: Remediation, retry: bool, helm: HelmRun)
    returns (result: ActionResult)
    modifies obj, obj.history
    ensures Acted(WorldOf(obj, sto), result)
              == FinishRelease(req, old(obj.Value()), sto.releases, r, retry, helm)
  {
    if helm.failed {
      obj.failures := obj.failures + 1;
      if helm.writes == [] {
        return Err(HelmError);
      }
      obj.IncrementFailureCount(r);
      return Ok;
    }
    var cur := obj.history.Latest();
    S.SortedMembers(old(obj.history.items));
    if cur.None? {
      return Panic;
    }
    if retry {
      obj.ClearFailures();
    }
    obj.ObservePostRenderers(req);
    return Ok;
  }

  method Install(req: Request, obj: HelmRelease, sto: HelmStorage, tries: seq<Try>, failed: bool)
    returns (result: ActionResult)
    modifies obj, obj.history, sto
    ensures Acted(WorldOf(obj, sto), result)
              == RunInstall(req, old(WorldOf(obj, sto)), HelmRun(Persisted(tries), failed, None))
  {
    var driver := new ObservingDriver(sto, obj.history, Batch, req.canonical);
    obj.lastAction := ActionInstall;
    obj.history.items := [];
    driver.PerformAll(tries);
    obj.history.RecordObserved(req.canonical, driver.observed, obj.lastAttemptedRevisionDigest, ActionInstall);
    result := Finish(req, obj, sto, req.spec.installRemediation,
                     MustRetry(req.spec.installStrategy, req.defaultToRetry), HelmRun(Persisted(tries), failed, None));
  }

  method Upgrade(req: Request, obj: HelmRelease, sto: HelmStorage, tries: seq<Try>, failed: bool)
    returns (result: ActionResult)
    modifies obj, obj.history, sto
    ensures Acted(WorldOf(obj, sto), result)
              == RunUpgrade(req, old(WorldOf(obj, sto)), HelmRun(Persisted(tries), failed, None))
  {
    var driver := new ObservingDriver(sto, obj.history, Batch, req.canonical);
    obj.lastAction := ActionUpgrade;
    driver.PerformAll(tries);
    obj.history.RecordObserved(req.canonical, driver.observed, obj.lastAttemptedRevisionDigest, ActionUpgrade);
    result := Finish(req, obj, sto, req.spec.upgradeRemediation,
                     MustRetry(req.spec.upgradeStrategy, req.defaultToRetry), HelmRun(Persisted(tries), failed, None));
  }

  /** Counts a failed test. */
  method FailTest(req: Request, obj: HelmRelease, tested: bool)
    modifies obj
    ensures obj.Value() == CountTestFailure(req, old(obj.Value()), tested)
  {
    obj.failures := obj.failures + 1;
    var active := RemediationFor(req, obj.lastAction);
    if tested && active.Some? && !active.value.MustIgnoreTestFailures(req.spec.testIgnoreFailures) {
      obj.IncrementFailureCount(active.value);
    }
  }

  method Test(req: Request, obj: HelmRelease, sto: HelmStorage, tries: seq<Try>, failed: bool, target: Option<Release>)
    returns (result: ActionResult)
    modifies obj, obj.history, sto
    ensures Acted(WorldOf(obj, sto), result)
              == RunTest(req, old(WorldOf(obj, sto)), HelmRun(Persisted(tries), failed, target))
  {
    S.SortedMembers(obj.history.items);
    var cur := obj.history.Latest();
    if cur.None? {
      return Err(NoLatest);
    }
    var driver := new ObservingDriver(sto, obj.history, Each(TestObserver(req.spec.testFilters)), req.canonical);
    driver.PerformAll(tries);
    var mismatch := target.Some? && !Acts(target.value, cur.value);
    var latest := obj.history.Latest();
    if failed || mismatch {
      var tested := latest.Some? && latest.value.HasBeenTested();
      FailTest(req, obj, tested);
      if !tested {
        return Err(if mismatch then ReleaseMismatch else HelmError);
      }
    }
    return Ok;
  }

  /** The current release and the one to roll back to. */
  method RollbackSubjects(req: Request, obj: HelmRelease) returns (cur: Option<Snapshot>, prev: Option<Snapshot>)
    modifies obj.history
    ensures cur == S.Latest(old(obj.history.items)) && prev == RollbackTarget(req, old(obj.Value()))
    ensures obj.Value() == old(obj.Value()).(history := S.Sorted(old(obj.history.items)))
  {
    var ignore := req.spec.upgradeRemediation.MustIgnoreTestFailures(req.spec.testIgnoreFailures);
    S.PreviousSorted(obj.history.items, ignore);
    SortedTwice(obj.history.items);
    cur := obj.history.Latest();
    prev := obj.history.Previous(ignore);
  }

  method Rollback(req: Request, obj: HelmRelease, sto: HelmStorage, tries: seq<Try>, failed: bool)
    returns (result: ActionResult)
    modifies obj, obj.history, sto
    ensures Acted(WorldOf(obj, sto), result)
              == RunRollback(req, old(WorldOf(obj, sto)), HelmRun(Persisted(tries), failed, None))
  {
    var cur, prev := RollbackSubjects(req, obj);
    if prev.None? || cur.None? {
      return Err(MissingTarget);
    }
    if prev.value.name != cur.value.name || prev.value.ns != cur.value.ns {
      return Err(ReleaseMismatch);
    }
    var driver := new ObservingDriver(sto, obj.history, Each(RollbackObserver), req.canonical);
    driver.PerformAll(tries);
    result := ConcludeRollback(obj, sto, HelmRun(Persisted(tries), failed, None), cur.value);
  }

  lemma SortedTwice(h: seq<Snapshot>)
    ensures S.Sorted(S.Sorted(h)) == S.Sorted(h)
  {
    S.SortedMembers(h);
    S.SortedIdempotent(S.Sorted(h));
  }

  method ConcludeRollback(obj: HelmRelease, ghost sto: HelmStorage, helm: HelmRun, cur: Snapshot)
    returns (result: ActionResult)
    modifies obj, obj.history
    ensures Acted(WorldOf(obj, sto), result) == FinishRollback(old(obj.Value()), sto.releases, helm, cur)
  {
    if helm.failed {
      obj.failures := obj.failures + 1;
      var newCur := obj.history.Latest();
      if newCur.None? || newCur.value.digest == cur.digest {
        return Err(HelmError);
      }
    }
    return Ok;
  }

  method ConcludeUninstall(obj: HelmRelease, ghost sto: HelmStorage, helm: HelmRun, mismatch: bool, same: bool)
    returns (result: ActionResult)
    modifies obj
    ensures Acted(WorldOf(obj, sto), result) == FinishUninstall(old(obj.Value()), sto.releases, helm, mismatch, same)
  {
    if helm.failed || mismatch {
      obj.failures := obj.failures + 1;
      return if !same then Ok else Err(if mismatch then ReleaseMismatch else HelmError);
    }
    if same {
      obj.failures := obj.failures + 1;
      return Err(NoStorageUpdate);
    }
    return Ok;
  }

  method UninstallRemediation(req: Request, obj: HelmRelease, sto: HelmStorage, tries: seq<Try>, failed: bool,
                              target: Option<Release>)
    returns (result: ActionResult)
    modifies obj, obj.history, sto
    ensures Acted(WorldOf(obj, sto), result)
              == RunUninstallRemediation(req, old(WorldOf(obj, sto)), HelmRun(Persisted(tries), failed, target))
  {
    S.SortedMembers(obj.history.items);
    var cur := obj.history.Latest();
    if cur.None? {
      return Err(NoLatest);
    }
    var driver := new ObservingDriver(sto, obj.history, Each(UninstallObserver(ActionUninstallRemediation)), req.canonical);
    driver.PerformAll(tries);
    var mismatch := target.Some? && !Acts(target.value, cur.value);
    var latest := obj.history.Latest();
    var same := latest.None? || latest.value.digest == cur.value.digest;
    result := ConcludeUninstall(obj, sto, HelmRun(Persisted(tries), failed, target), mismatch, same);
  }

  method Unlock(req: Request, obj: HelmRelease, sto: HelmStorage, down: bool, fails: bool) returns (result: ActionResult)
    modifies obj, obj.history, sto
    ensures forall helm: HelmRun | helm.failed == fails ::
              Acted(WorldOf(obj, sto), result) == RunUnlock(req, old(WorldOf(obj, sto)), down, helm)
  {
    if down {
      return Err(StorageError);
    }
    var last := Last(sto.releases, req.spec.name);
    if last.Some? && IsLocked(last.value.status) {
      var driver := new ObservingDriver(sto, obj.history, Each(UnlockObserver), req.canonical);
      var err := driver.Perform(Try(Put(Unlocked(last.value)), fails));
      if err {
        obj.failures := obj.failures + 1;
        return Err(StorageError);
      }
    }
    return Ok;
  }

  /** Runs the action. What Helm tries is `tries`, of which the writes of `helm`
      succeed. */
  method RunAction(req: Request, a: Action, obj: HelmRelease, sto: HelmStorage, down: bool, helm: HelmRun, tries: seq<Try>)
    returns (result: ActionResult)
    requires Persisted(tries) == helm.writes
    modifies obj, obj.history, sto
    ensures Acted(WorldOf(obj, sto), result) == Execute(req, a, old(WorldOf(obj, sto)), down, helm)
  {
    match a
    case Install => result := Install(req, obj, sto, tries, helm.failed);
    case Upgrade => result := Upgrade(req, obj, sto, tries, helm.failed);
    case Test => result := Test(req, obj, sto, tries, helm.failed, helm.target);
    case Rollback => result := Rollback(req, obj, sto, tries, helm.failed);
    case UninstallRemediation => result := UninstallRemediation(req, obj, sto, tries, helm.failed, helm.target);
    case Unlock => result := Unlock(req, obj, sto, down, helm.failed);
    case CorrectDrift => result := Ok;
  }

  // ---------- State and decision ----------

  method DetermineReleaseState(req: Request, obj: HelmRelease, sto: HelmStorage, down: bool, diff: Diff)
    returns (state: Option<ReleaseStatus>)
    modifies obj.history
    ensures state == Determine(req, old(obj.Value()), sto.releases, down, diff)
    ensures obj.Value() == SortedByLookup(req, old(obj.Value()), sto.releases, down)
  {
    if down {
      return None;
    }
    var last := Last(sto.releases, req.spec.name);
    if last.None? {
      return Some(Absent);
    }
    var r := last.value;
    if IsLocked(r.status) {
      return Some(Locked);
    }
    if obj.history.items == [] {
      return Some(if r.status == Uninstalled then Absent else Unmanaged);
    }
    var cur := obj.history.Latest();
    if VerifyReleaseObject(cur.value, r) != Verified {
      return Some(Unmanaged);
    }
    match r.status
    case StatusFailed => return Some(Failed);
    case Uninstalled => return Some(Absent);
    case Deployed => return DeployedState(req, obj.Value(), cur.value, r, diff);
    case _ => return None;
  }

  method DecideForFailed(req: Request, obj: HelmRelease, sto: HelmStorage, forced: bool, down: bool) returns (next: Next)
    modifies obj.history
    ensures Decision(obj.Value(), next) == DecideFailed(req, old(obj.Value()), sto.releases, forced, down)
  {
    if RetryFor(req, obj.lastAction) {
      obj.history.TruncateIgnoringPreviousSnapshots();
      return Run(Action.Upgrade);
    }
    var active := RemediationFor(req, obj.lastAction);
    if active.None? || active.value.FailureCount(obj.Value()) <= 0 || forced {
      return Run(Action.Upgrade);
    }
    var r := active.value;
    if r.RetriesExhausted(obj.Value()) && !r.MustRemediateLastFailure() {
      return Fail(ExceededMaxRetries);
    }
    var ignore := r.MustIgnoreTestFailures(req.spec.testIgnoreFailures);
    S.TruncateKeeps(obj.history.items, ignore);
    obj.history.Truncate(ignore);
    var target := NotFound;
    if r.GetStrategy() == RollbackStrategy {
      var prev := obj.history.Previous(ignore);
      target := VerifySnapshot(sto.releases, prev, down);
    }
    next := Remedy(r.GetStrategy(), target);
  }

  method DecideAction(req: Request, obj: HelmRelease, sto: HelmStorage, state: ReleaseStatus, down: bool) returns (next: Next)
    modifies obj, obj.history
    ensures Decision(obj.Value(), next) == ActionForState(req, old(obj.Value()), sto.releases, state, down)
  {
    var forced := obj.ShouldHandleForceRequest(req);
    match state
    case InSync =>
      if RetryFor(req, obj.lastAction) {
        obj.history.TruncateIgnoringPreviousSnapshots();
      } else {
        var active := RemediationFor(req, obj.lastAction);
        obj.history.Truncate(if active.Some? then active.value.MustIgnoreTestFailures(req.spec.testIgnoreFailures)
                             else req.spec.testIgnoreFailures);
      }
      next := if forced then Run(Action.Upgrade) else Nothing;
    case Locked =>
      next := Run(Action.Unlock);
    case Absent =>
      next := if req.spec.installRemediation.RetriesExhausted(obj.Value()) && !forced then Fail(ExceededMaxRetries)
              else Run(Action.Install);
    case Unmanaged =>
      obj.history.items := [];
      next := Run(Action.Upgrade);
    case OutOfSync =>
      next := if req.spec.upgradeRemediation.RetriesExhausted(obj.Value()) && !forced then Fail(ExceededMaxRetries)
              else Run(Action.Upgrade);
    case Drifted =>
      next := if req.spec.driftMode.DriftEnabled? then Run(CorrectDrift) else Nothing;
    case Untested =>
      next := Run(Action.Test);
    case Failed =>
      next := DecideForFailed(req, obj, sto, forced, down);
  }

  // ---------- The loop ----------

  /** What a turn leaves: whether it stops the loop and with what, and the type of
      the action it ran. */
  ghost predicate Took(turned: Turned, w: World, stop: Option<Result>, ran: Option<Action>) {
    match turned
    case Go(e) => stop.None? && w == e.after && ran == e.ran
    case Stop(_, world, result) => stop == Some(result) && w == world
  }

  /** The part of a turn after an action was decided. */
  method Act(req: Request, a: Action, obj: HelmRelease, sto: HelmStorage, previous: seq<ReconcilerType>, t: Turn, tries: seq<Try>,
             ghost e: Event)
    returns (stop: Option<Result>, ran: Option<Action>)
    requires Persisted(tries) == t.helm.writes && e.decided == WorldOf(obj, sto) && e.next == Run(a)
    modifies obj, obj.history, sto
    ensures Took(Proceed(req, Decision(e.decided.status, Run(a)), e, previous, t), WorldOf(obj, sto), stop, ran)
  {
    ran := None;
    if TypeOf(a) in previous {
      return Some(BeforeRepeat(req, obj.Value())), None;
    }
    var postponed := Postponed(req, a, obj.Value(), t);
    if postponed.Some? {
      return Some(postponed.value), None;
    }
    if !t.patchBefore {
      return Some(Failure(PatchError)), None;
    }
    var result := RunAction(req, a, obj, sto, t.actionDown, t.helm, tries);
    ran := Some(a);
    match result
    case Panic => stop := Some(Panicked);
    case Err(err) => stop := Some(Failure(if RetryFor(req, obj.lastAction) then RetryAfterInterval else ActionFailed(err)));
    case Ok =>
      stop := if TypeOf(a) == TypeRemediate then Some(AfterRemediation(req, obj.Value()))
              else if !t.patchAfter then Some(Failure(PatchError))
              else None;
  }

  /** One turn of the loop. */
  method TakeTurn(req: Request, obj: HelmRelease, sto: HelmStorage, previous: seq<ReconcilerType>, t: Turn, tries: seq<Try>)
    returns (stop: Option<Result>, ran: Option<Action>)
    requires Persisted(tries) == t.helm.writes
    modifies obj, obj.history, sto
    ensures Took(Turning(req, old(WorldOf(obj, sto)), previous, t), WorldOf(obj, sto), stop, ran)
  {
    if t.canceled {
      return Some(Failure(Canceled)), None;
    }
    if t.foreign.Some? {
      sto.releases := t.foreign.value;
    }
    ghost var seen := WorldOf(obj, sto);
    var state := DetermineReleaseState(req, obj, sto, t.lastDown, t.diff);
    if state.None? {
      return Some(Failure(StateError)), None;
    }
    var next := DecideAction(req, obj, sto, state.value, t.getDown);
    ghost var (d, e) := Decided(req, seen, state.value, t);
    assert d == Decision(obj.Value(), next) && e.decided == WorldOf(obj, sto);
    match next
    case Fail(error) =>
      var panics := error.ExceededMaxRetries? && RemediationFor(req, obj.lastAction).None?;
      return Some(if panics then Panicked else Failure(error)), None;
    case Nothing =>
      obj.ObservePostRenderers(req);
      return Some(Done), None;
    case Run(a) =>
      stop, ran := Act(req, a, obj, sto, previous, t, tries, e);
  }

  /** Reconciles until there is nothing to do, or nothing to do for now. */
  method ReconcileRelease(req: Request, obj: HelmRelease, sto: HelmStorage, env: nat -> Turn, tries: nat -> seq<Try>)
    returns (result: Result)
    requires forall n :: Persisted(tries(n)) == env(n).helm.writes
    modifies obj, obj.history, sto
    ensures var o := Reconcile(req, old(WorldOf(obj, sto)), env);
            WorldOf(obj, sto) == o.world && result == o.result
  {
    var previous: seq<ReconcilerType> := [];
    var n := 0;
    ghost var o := Reconcile(req, WorldOf(obj, sto), env);
    while true
      invariant var rest := Reconciling(req, WorldOf(obj, sto), previous, env, n);
                rest.world == o.world && rest.result == o.result
      decreases Remaining(previous)
    {
      ghost var w := WorldOf(obj, sto);
      assert Persisted(tries(n)) == env(n).helm.writes;
      var stop, ran := TakeTurn(req, obj, sto, previous, env(n), tries(n));
      if stop.Some? {
        return stop.value;
      }
      GoShape(req, w, previous, env(n));
      previous := previous + [TypeOf(ran.value)];
      n := n + 1;
    }
  }
}
