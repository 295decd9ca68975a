/** Which action is decided for which state, in terms of the spec and the status
    (internal/reconcile/atomic_release.go). */
module Decisions {
  import opened Api
  import opened Snapshots
  import opened Releases
  import opened Requests
  import opened State
  import opened Actions
  import opened AtomicRelease
  import opened Runs
  import opened Classification

  // ---------- What the spec says ----------

  /** The failures counted against what was last done. */
  ghost function FailuresOf(st: Status): int {
    match st.lastAction
    case ActionInstall => st.installFailures
    case ActionUpgrade => st.upgradeFailures
    case _ => 0
  }

  /** What was last done counts its failures: it was an install or an upgrade. */
  ghost predicate Counts(st: Status) {
    st.lastAction == ActionInstall || st.lastAction == ActionUpgrade
  }

  /** What was last done is to be retried, rather than remediated. */
  ghost predicate Retries(req: Request, st: Status) {
    && Counts(st)
    && var strategy := if st.lastAction == ActionInstall then req.spec.installStrategy else req.spec.upgradeStrategy;
       strategy == Some(RetryOnFailure) || (strategy.None? && req.defaultToRetry)
  }

  /** How failures of what was last done are remediated. */
  ghost function RemediedBy(req: Request, st: Status): RemediationStrategy {
    if st.lastAction == ActionInstall then UninstallStrategy
    else if req.spec.upgradeRemediation.strategy.None? then RollbackStrategy
    else req.spec.upgradeRemediation.strategy.value
  }

  ghost function LimitOf(req: Request, st: Status): int {
    if st.lastAction == ActionInstall then req.spec.installRemediation.retries else req.spec.upgradeRemediation.retries
  }

  /** Failures are beyond a limit that is not negative. */
  ghost predicate Spent(req: Request, st: Status) {
    0 <= LimitOf(req, st) < FailuresOf(st)
  }

  /** The last failure is remediated too: by request, or by default if it is of an
      upgrade with retries. */
  ghost predicate RemediesLast(req: Request, st: Status) {
    if st.lastAction == ActionInstall
    then req.spec.installRemediation.remediateLastFailure == Some(true)
    else req.spec.upgradeRemediation.remediateLastFailure == Some(true)
         || (req.spec.upgradeRemediation.remediateLastFailure.None? && req.spec.upgradeRemediation.retries > 0)
  }

  /** A force request is pending, and is not the one handled last. */
  ghost predicate ForcePending(req: Request, st: Status) {
    && req.annotations.forceAt.Some? && req.annotations.forceAt == req.annotations.reconcileAt
    && st.lastHandledReconcileAt != req.annotations.forceAt.value && st.lastHandledForceAt != req.annotations.forceAt.value
  }

  ghost predicate Exceeded(limit: int, failures: int) {
    0 <= limit < failures
  }

  // ---------- A failed release ----------

  /** The failure is looked into: it is one that counts, and is neither retried nor
      overridden. */
  ghost predicate Considered(req: Request, st: Status) {
    !Retries(req, st) && Counts(st) && FailuresOf(st) > 0 && !ForcePending(req, st)
  }

  /** It is remediated, since retries are left or the last failure is too. */
  ghost predicate Remediated(req: Request, st: Status) {
    Considered(req, st) && (!Spent(req, st) || RemediesLast(req, st))
  }

  /** The release to roll back to, whether its failed tests matter or not. */
  ghost function Target(req: Request, st: Status): Option<Snapshot> {
    Previous(st.history, if req.spec.upgradeRemediation.ignoreTestFailures.Some?
                         then req.spec.upgradeRemediation.ignoreTestFailures.value else req.spec.testIgnoreFailures)
  }

  ghost predicate RollsBackTo(req: Request, st: Status) {
    Remediated(req, st) && RemediedBy(req, st) == RollbackStrategy
  }

  /** The target is in storage as it was recorded. */
  ghost predicate IsThere(s: Snapshot, sto: Storage) {
    Key(s.name, s.version) in sto && StandsFor(s, sto[Key(s.name, s.version)])
  }

  /** What is decided for a failed release. */
  ghost predicate DecidesFailed(req: Request, st: Status, sto: Storage, down: bool, next: Next) {
    match next
    case Run(Upgrade) =>
      || Retries(req, st) || !Counts(st) || FailuresOf(st) <= 0 || ForcePending(req, st)
      || (RollsBackTo(req, st) && Target(req, st).Some? && !down && !IsThere(Target(req, st).value, sto))
    case Run(Rollback) => RollsBackTo(req, st) && Target(req, st).Some? && !down && IsThere(Target(req, st).value, sto)
    case Run(UninstallRemediation) => Remediated(req, st) && RemediedBy(req, st) == UninstallStrategy
    case Fail(ExceededMaxRetries) => Considered(req, st) && Spent(req, st) && !RemediesLast(req, st)
    case Fail(MissingRollbackTarget) => RollsBackTo(req, st) && Target(req, st).None?
    case Fail(Temporary) => RollsBackTo(req, st) && Target(req, st).Some? && down
    case Fail(UnknownStrategy) => Remediated(req, st) && RemediedBy(req, st).OtherStrategy?
    case _ => false
  }

  lemma VerifiedIsThere(s: Option<Snapshot>, sto: Storage, down: bool)
    ensures VerifySnapshot(sto, s, down) ==
              if s.None? then NotFound else if down then Unavailable
              else if Key(s.value.name, s.value.version) !in sto then Disappeared
              else if IsThere(s.value, sto) then Verified
              else if s.value.digest.Unparsable? then BadDigest else NotObserved
  {
  }

  /** How a failure is remediated. */
  ghost function RemedyFor(req: Request, st: Status, sto: Storage, down: bool): Next {
    match RemediedBy(req, st)
    case UninstallStrategy => Run(UninstallRemediation)
    case OtherStrategy(_) => Fail(UnknownStrategy)
    case RollbackStrategy =>
      if Target(req, st).None? then Fail(MissingRollbackTarget)
      else if down then Fail(Temporary)
      else if IsThere(Target(req, st).value, sto) then Run(Rollback)
      else Run(Upgrade)
  }

  lemma RemediationDecides(req: Request, st: Status, sto: Storage, down: bool)
    requires Counts(st)
    ensures DecideRemediation(req, st, sto, ActiveRemediation(req, st).value, down).next == RemedyFor(req, st, sto, down)
  {
    var ignore := ActiveRemediation(req, st).value.MustIgnoreTestFailures(req.spec.testIgnoreFailures);
    TruncateKeepsPrevious(st.history, ignore);
    VerifiedIsThere(Previous(st.history, ignore), sto, down);
  }

  lemma FailedDecides(req: Request, st: Status, sto: Storage, down: bool)
    ensures ActionForState(req, st, sto, Failed, down).next ==
              if !Considered(req, st) then Run(Upgrade)
              else if !Remediated(req, st) then Fail(ExceededMaxRetries)
              else RemedyFor(req, st, sto, down)
  {
    var st1 := RememberForce(req, st);
    if Counts(st) {
      RemediationDecides(req, st1, sto, down);
      assert RemedyFor(req, st1, sto, down) == RemedyFor(req, st, sto, down);
    }
  }

  /** What is decided for a failed release, and nothing else, is what the spec and
      the status call for. */
  lemma FailedDecidesExactly(req: Request, st: Status, sto: Storage, down: bool, next: Next)
    ensures ActionForState(req, st, sto, Failed, down).next == next <==> DecidesFailed(req, st, sto, down, next)
  {
    FailedDecides(req, st, sto, down);
    FailedCases(req, st, sto, down, next);
  }

  lemma FailedCases(req: Request, st: Status, sto: Storage, down: bool, next: Next)
    ensures DecidesFailed(req, st, sto, down, next) <==>
              next == if !Considered(req, st) then Run(Upgrade)
                      else if !Remediated(req, st) then Fail(ExceededMaxRetries)
                      else RemedyFor(req, st, sto, down)
  {
  }

  lemma RemediationHistory(req: Request, st: Status, sto: Storage, down: bool)
    requires Counts(st)
    ensures DecideRemediation(req, st, sto, ActiveRemediation(req, st).value, down).status.history
              == Truncate(st.history, !TestsCount(req, st))
  {
  }

  lemma RetriedHistory(req: Request, st: Status, sto: Storage, forced: bool, down: bool)
    requires Retries(req, st)
    ensures DecideFailed(req, st, sto, forced, down).status.history == TruncateIgnoringPrevious(st.history)
  {
  }

  lemma UnremediatedHistory(req: Request, st: Status, sto: Storage, down: bool)
    requires !Retries(req, st) && !Remediated(req, st)
    ensures ActionForState(req, st, sto, Failed, down).status.history == st.history
  {
  }

  lemma RemediatedHistory(req: Request, st: Status, sto: Storage, down: bool)
    requires Remediated(req, st)
    ensures ActionForState(req, st, sto, Failed, down).status.history == Truncate(st.history, !TestsCount(req, st))
  {
    var st1 := RememberForce(req, st);
    RemediationHistory(req, st1, sto, down);
    assert ActionForState(req, st, sto, Failed, down) == DecideRemediation(req, st1, sto, ActiveRemediation(req, st1).value, down);
  }

  /** What becomes of the history when a decision about a failed release is made:
      the five newest snapshots if it is retried, those down to the target if it
      is remediated. */
  lemma FailedHistory(req: Request, st: Status, sto: Storage, down: bool)
    ensures ActionForState(req, st, sto, Failed, down).status.history ==
              if Retries(req, st) then TruncateIgnoringPrevious(st.history)
              else if Remediated(req, st) then Truncate(st.history, !TestsCount(req, st))
              else st.history
  {
    if Retries(req, st) {
      RetriedHistory(req, RememberForce(req, st), sto, ForceRequested(req, st), down);
    } else if Remediated(req, st) {
      RemediatedHistory(req, st, sto, down);
    } else {
      UnremediatedHistory(req, st, sto, down);
    }
  }

  // ---------- The other states ----------

  /** What is decided for every other state. */
  ghost predicate DecidesOther(req: Request, st: Status, state: ReleaseStatus, next: Next)
    requires !state.Failed?
  {
    match state
    case InSync => next == if ForcePending(req, st) then Run(Upgrade) else Nothing
    case Locked => next == Run(Unlock)
    case Absent =>
      next == if Exceeded(req.spec.installRemediation.retries, st.installFailures) && !ForcePending(req, st)
              then Fail(ExceededMaxRetries) else Run(Install)
    case Unmanaged => next == Run(Upgrade)
    case OutOfSync =>
      next == if Exceeded(req.spec.upgradeRemediation.retries, st.upgradeFailures) && !ForcePending(req, st)
              then Fail(ExceededMaxRetries) else Run(Upgrade)
    case Drifted => next == if req.spec.driftMode == DriftEnabled then Run(CorrectDrift) else Nothing
    case Untested => next == Run(Test)
  }

  lemma OtherDecidesExactly(req: Request, st: Status, sto: Storage, state: ReleaseStatus, down: bool, next: Next)
    requires !state.Failed?
    ensures ActionForState(req, st, sto, state, down).next == next <==> DecidesOther(req, st, state, next)
  {
  }

  /** What becomes of the history: it is cut down once all is well, dropped if it is
      of no use, and kept otherwise. */
  lemma OtherHistory(req: Request, st: Status, sto: Storage, state: ReleaseStatus, down: bool)
    requires !state.Failed?
    ensures var h' := ActionForState(req, st, sto, state, down).status.history;
            h' == if state.Unmanaged? then []
                  else if !state.InSync? then st.history
                  else if Retries(req, st) then TruncateIgnoringPrevious(st.history)
                  else Truncate(st.history, if Counts(st) then !TestsCount(req, st) else req.spec.testIgnoreFailures)
  {
  }

  /** A decision remembers the force request it met, and changes nothing else but
      the history. */
  lemma DecisionRemembers(req: Request, st: Status, sto: Storage, state: ReleaseStatus, down: bool)
    ensures var st' := ActionForState(req, st, sto, state, down).status;
            st' == st.(history := st'.history,
                       lastHandledForceAt := if req.annotations.forceAt.Some? then req.annotations.forceAt.value
                                             else st.lastHandledForceAt)
  {
    DecisionFrame(req, st, sto, state, down);
  }

  // ---------- Runs ----------

  /** Whenever an uninstall remediation is run, the strategy for what was last done
      is to uninstall, and there was a failure that counts. */
  lemma UninstallsOnlyAsConfigured(req: Request, w: World, e: Event)
    requires Recorded(req, w, e) && e.ran == Some(UninstallRemediation)
    ensures e.state.Failed? && Remediated(req, w.status) && RemediedBy(req, w.status) == UninstallStrategy
  {
    var st := SortedByLookup(req, e.seen.status, e.seen.storage, e.turn.lastDown);
    UninstallsFailed(req, st, e.seen.storage, e.state, e.turn.getDown);
    FailedDecidesExactly(req, st, e.seen.storage, e.turn.getDown, Run(UninstallRemediation));
  }

  lemma UninstallsFailed(req: Request, st: Status, sto: Storage, state: ReleaseStatus, down: bool)
    requires ActionForState(req, st, sto, state, down).next == Run(UninstallRemediation)
    ensures state.Failed?
  {
  }

  lemma TestProceeds(req: Request, d: Decision, e: Event, previous: seq<ReconcilerType>, t: Turn)
    requires Calm(t) && d.next == Run(Test) && TypeTest !in previous
    ensures var r := Proceed(req, d, e, previous, t);
            var l := if r.Go? then Some(r.event) else r.last;
            l.Some? && l.value.ran == Some(Test)
  {
  }

  /** A deployed release whose tests were not run is tested next, whatever the
      retries. */
  lemma UntestedIsTested(req: Request, w: World, previous: seq<ReconcilerType>, t: Turn)
    requires Calm(t) && Determine(req, w.status, w.storage, false, t.diff) == Some(Untested) && TypeTest !in previous
    ensures Means(req, w.status, Last(w.storage, req.spec.name), t.diff, Untested)
    ensures var r := Turning(req, w, previous, t);
            var e := if r.Go? then Some(r.event) else r.last;
            e.Some? && e.value.ran == Some(Test)
  {
    StateMeans(req, w.status, w.storage, t.diff, Untested);
    var (d, e) := Decided(req, w, Untested, t);
    TestProceeds(req, d, e, previous, t);
    assert Turning(req, w, previous, t) == Proceed(req, d, e, previous, t);
  }
}
