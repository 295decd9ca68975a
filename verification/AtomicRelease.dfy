/** The atomic release loop (internal/reconcile/atomic_release.go). */
module AtomicRelease {
  import opened Api
  import opened Snapshots
  import opened Releases
  import opened Requests
  import opened State
  import opened Actions

  datatype Error =
    | ExceededMaxRetries
    | RetryAfterInterval
    | MustRequeue
    | MissingRollbackTarget
    | UnknownStrategy
    | Temporary
    | StateError
    | Canceled
    | PatchError
    | ActionFailed(error: ActionError)

  // ---------- actionForState ----------

  datatype Next = Nothing | Run(action: Action) | Fail(error: Error)

  datatype Decision = Decision(status: Status, next: Next)

  predicate IgnoresTestFailures(req: Request, st: Status) {
    var active := ActiveRemediation(req, st);
    if active.Some? then active.value.MustIgnoreTestFailures(req.spec.testIgnoreFailures) else req.spec.testIgnoreFailures
  }

  function DecideInSync(req: Request, st: Status, forced: bool): Decision {
    var h := if ActiveRetry(req, st) then TruncateIgnoringPrevious(st.history)
             else Truncate(st.history, IgnoresTestFailures(req, st));
    Decision(st.(history := h), if forced then Run(Upgrade) else Nothing)
  }

  /** Install or upgrade within the retry budget, or by force. */
  function DecideWithinBudget(st: Status, r: Remediation, a: Action, forced: bool): Decision {
    Decision(st, if r.RetriesExhausted(st) && !forced then Fail(ExceededMaxRetries) else Run(a))
  }

  /** What remains to do once the rollback target was looked at. */
  function Remedy(strategy: RemediationStrategy, target: Verification): Next {
    match strategy
    case RollbackStrategy =>
      (match target
       case NotFound => Fail(MissingRollbackTarget)
       case Disappeared => Run(Upgrade)
       case NotObserved => Run(Upgrade)
       case BadDigest => Run(Upgrade)
       case Unavailable => Fail(Temporary)
       case Verified => Run(Rollback))
    case UninstallStrategy => Run(UninstallRemediation)
    case OtherStrategy(_) => Fail(UnknownStrategy)
  }

  /** How to remediate a failed release with remediation `r`. */
  function DecideRemediation(req: Request, st: Status, sto: Storage, r: Remediation, down: bool): Decision {
    var ignore := r.MustIgnoreTestFailures(req.spec.testIgnoreFailures);
    var h := Truncate(st.history, ignore);
    Decision(st.(history := h), Remedy(r.GetStrategy(), VerifySnapshot(sto, Previous(h, ignore), down)))
  }

  function DecideFailed(req: Request, st: Status, sto: Storage, forced: bool, down: bool): Decision {
    var active := ActiveRemediation(req, st);
    if ActiveRetry(req, st) then Decision(st.(history := TruncateIgnoringPrevious(st.history)), Run(Upgrade))
    else if active.None? then Decision(st, Run(Upgrade))
    else if active.value.FailureCount(st) <= 0 then Decision(st, Run(Upgrade))
    else if forced then Decision(st, Run(Upgrade))
    else if active.value.RetriesExhausted(st) && !active.value.MustRemediateLastFailure() then
      Decision(st, Fail(ExceededMaxRetries))
    else DecideRemediation(req, st, sto, active.value, down)
  }

  function ActionForState(req: Request, st0: Status, sto: Storage, state: ReleaseStatus, down: bool): Decision {
    var forced := ForceRequested(req, st0);
    var st := RememberForce(req, st0);
    match state
    case InSync => DecideInSync(req, st, forced)
    case Locked => Decision(st, Run(Unlock))
    case Absent => DecideWithinBudget(st, req.spec.installRemediation, Install, forced)
    case Unmanaged => Decision(st.ClearHistory(), Run(Upgrade))
    case OutOfSync => DecideWithinBudget(st, req.spec.upgradeRemediation, Upgrade, forced)
    case Drifted => Decision(st, if req.spec.driftMode.DriftEnabled? then Run(CorrectDrift) else Nothing)
    case Untested => Decision(st, Run(Test))
    case Failed => DecideFailed(req, st, sto, forced, down)
  }

  // ---------- The loop ----------

  /** What one turn of the loop meets. `foreign` is what others made of the
      storage since the last turn; the flags are the failures and interruptions
      the turn can run into. */
  datatype Turn = Turn(
    canceled: bool, foreign: Option<Storage>, lastDown: bool, diff: Diff, getDown: bool,
    enqueued: bool, patchBefore: bool, actionDown: bool, helm: HelmRun, patchAfter: bool)

  datatype Result = Done | Failure(error: Error) | Panicked

  /** A turn that got as far as a decision: what it met, the world it
      classified, the answer, the world the decision left, the action that was
      run, if any, and the world after it. */
  datatype Event = Event(
    turn: Turn, seen: World, state: ReleaseStatus, decided: World, next: Next,
    ran: Option<Action>, after: World)

  datatype Turned = Go(event: Event) | Stop(last: Option<Event>, world: World, result: Result)

  /** After a remediation the loop stops, by asking for another round or, when
      no retries remain, for good. */
  function AfterRemediation(req: Request, st: Status): Result {
    var active := ActiveRemediation(req, st);
    if ActiveRetry(req, st) then Failure(RetryAfterInterval)
    else if active.None? || !active.value.RetriesExhausted(st) || active.value.IsUninstallAfterUpgrade() then
      Failure(MustRequeue)
    else Failure(ExceededMaxRetries)
  }

  /** The next action would repeat a type of action: stop before running it. */
  function BeforeRepeat(req: Request, st: Status): Result {
    var active := ActiveRemediation(req, st);
    if ActiveRetry(req, st) then Failure(RetryAfterInterval)
    else if active.None? || !active.value.RetriesExhausted(st) then Failure(MustRequeue)
    else Done
  }

  /** The end of a turn after its action ran. */
  function Conclude(req: Request, a: Action, acted: Acted, t: Turn, e: Event): Turned {
    match acted.result
    case Panic => Stop(Some(e), acted.world, Panicked)
    case Err(err) =>
      Stop(Some(e), acted.world,
           Failure(if ActiveRetry(req, acted.world.status) then RetryAfterInterval else ActionFailed(err)))
    case Ok =>
      if TypeOf(a) == TypeRemediate then Stop(Some(e), acted.world, AfterRemediation(req, acted.world.status))
      else if !t.patchAfter then Stop(Some(e), acted.world, Failure(PatchError))
      else Go(e)
  }

  /** Whether a rollback is put off because the object was enqueued again. */
  function Postponed(req: Request, a: Action, st: Status, t: Turn): Option<Result> {
    var active := ActiveRemediation(req, st);
    if TypeOf(a) != TypeRemediate then None
    else if active.None? then Some(Panicked)
    else if active.value.GetStrategy() == RollbackStrategy && t.enqueued then Some(Failure(MustRequeue))
    else None
  }

  /** A turn from its decision on. */
  function Proceed(req: Request, d: Decision, e: Event, previous: seq<ReconcilerType>, t: Turn): Turned {
    var w := e.decided;
    match d.next
    case Fail(error) =>
      Stop(Some(e), w, if error.ExceededMaxRetries? && ActiveRemediation(req, w.status).None? then Panicked
                       else Failure(error))
    case Nothing =>
      Stop(Some(e), World(ObserveSpec(req, w.status), w.storage), Done)
    case Run(a) =>
      var postponed := Postponed(req, a, w.status, t);
      if TypeOf(a) in previous then Stop(Some(e), w, BeforeRepeat(req, w.status))
      else if postponed.Some? then Stop(Some(e), w, postponed.value)
      else if !t.patchBefore then Stop(Some(e), w, Failure(PatchError))
      else
        var acted := Execute(req, a, w, t.actionDown, t.helm);
        Conclude(req, a, acted, t, e.(ran := Some(a), after := acted.world))
  }

  function Seen(w: World, t: Turn): World {
    World(w.status, if t.foreign.Some? then t.foreign.value else w.storage)
  }

  /** The event of a turn before anything has been run. */
  function Decided(req: Request, seen: World, state: ReleaseStatus, t: Turn): (Decision, Event) {
    var st := SortedByLookup(req, seen.status, seen.storage, t.lastDown);
    var d := ActionForState(req, st, seen.storage, state, t.getDown);
    var w := World(d.status, seen.storage);
    (d, Event(t, seen, state, w, d.next, None, w))
  }

  function Turning(req: Request, w: World, previous: seq<ReconcilerType>, t: Turn): Turned {
    if t.canceled then Stop(None, w, Failure(Canceled)) else
      var seen := Seen(w, t);
      var state := Determine(req, seen.status, seen.storage, t.lastDown, t.diff);
      if state.None? then
        Stop(None, World(SortedByLookup(req, seen.status, seen.storage, t.lastDown), seen.storage), Failure(StateError))
      else
        var (d, e) := Decided(req, seen, state.value, t);
        Proceed(req, d, e, previous, t)
  }

  datatype Outcome = Outcome(events: seq<Event>, world: World, result: Result)

  function Weight(t: ReconcilerType, previous: seq<ReconcilerType>): nat {
    if t in previous then 0 else 1
  }

  /** The number of non-remediation types not yet run. */
  function Remaining(previous: seq<ReconcilerType>): nat {
    Weight(TypeRelease, previous) + Weight(TypeTest, previous) + Weight(TypeUnlock, previous) + Weight(TypeDrift, previous)
  }

  lemma GoShape(req: Request, w: World, previous: seq<ReconcilerType>, t: Turn)
    requires Turning(req, w, previous, t).Go?
    ensures var e := Turning(req, w, previous, t).event;
            && e.ran.Some? && TypeOf(e.ran.value) !in previous && TypeOf(e.ran.value) != TypeRemediate
            && Remaining(previous + [TypeOf(e.ran.value)]) == Remaining(previous) - 1
  {
  }

  /** Reconcile from turn `n` on, where turn `i` meets `env(i)`. */
  function Reconciling(req: Request, w: World, previous: seq<ReconcilerType>, env: nat -> Turn, n: nat): Outcome
    decreases Remaining(previous)
  {
    match Turning(req, w, previous, env(n))
    case Stop(last, world, result) => Outcome(if last.Some? then [last.value] else [], world, result)
    case Go(e) =>
      GoShape(req, w, previous, env(n));
      var rest := Reconciling(req, e.after, previous + [TypeOf(e.ran.value)], env, n + 1);
      Outcome([e] + rest.events, rest.world, rest.result)
  }

  function Reconcile(req: Request, w: World, env: nat -> Turn): Outcome {
    Reconciling(req, w, [], env, 0)
  }
}
