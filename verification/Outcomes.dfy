/** What every action does to the counters, and what a reconciliation answers, in
    terms of what Helm did, the spec and the status (internal/reconcile). */
module Outcomes {
  import opened Api
  import opened Snapshots
  import opened Releases
  import opened Recording
  import opened Requests
  import opened State
  import opened Actions
  import opened AtomicRelease
  import opened Runs
  import opened Completion
  import opened Classification
  import opened Decisions

  // ---------- Installs and upgrades ----------

  ghost function ActionOf(a: Action): ReleaseAction {
    if a.Install? then ActionInstall else ActionUpgrade
  }

  /** The counters after an install or upgrade: a failure is counted, against the
      retries of the action only if something was written, and a success clears
      everything if the strategy is to retry. */
  ghost predicate Counted(req: Request, a: Action, st: Status, st': Status, helm: HelmRun, recorded: bool) {
    if helm.failed then
      && st'.failures == st.failures + 1
      && st'.installFailures == st.installFailures + (if a.Install? && helm.writes != [] then 1 else 0)
      && st'.upgradeFailures == st.upgradeFailures + (if a.Upgrade? && helm.writes != [] then 1 else 0)
    else if recorded && Retries(req, st') then CountersCleared(st')
    else SameCounters(st, st')
  }

  /** The digest of a part of the spec, in the algorithm the controller is set to. */
  ghost predicate IsDigest(req: Request, d: Digest<string>, part: Option<string>) {
    d == if part.Some? then Digest(req.canonical, part.value) else Unparsable("")
  }

  /** What an install or upgrade answers, and what it does to the status besides the
      history. */
  lemma ReleaseContract(req: Request, a: Action, w: World, down: bool, helm: HelmRun)
    requires a.Install? || a.Upgrade?
    ensures var acted := Execute(req, a, w, down, helm);
            var st, st' := w.status, acted.world.status;
            var recorded := helm.writes != [] || (a.Upgrade? && st.history != []);
            && acted.world.storage == Apply(w.storage, helm.writes)
            && acted.result == (if helm.failed then (if helm.writes == [] then Err(HelmError) else Ok)
                                else if recorded then Ok else Panic)
            && st'.lastAction == ActionOf(a) && Counted(req, a, st, st', helm, recorded)
            && (if helm.failed || !recorded
                then st'.postRenderersDigest == st.postRenderersDigest && st'.commonMetadataDigest == st.commonMetadataDigest
                else IsDigest(req, st'.postRenderersDigest, req.spec.postRenderers)
                     && IsDigest(req, st'.commonMetadataDigest, req.spec.commonMetadata))
  {
    var h := if a.Install? then [] else w.status.history;
    RecordedExactly(req.canonical, helm.writes, h, w.status.lastAttemptedRevisionDigest, ActionOf(a));
  }

  lemma RecordedExactly(canonical: string, ws: seq<Write>, h: seq<Snapshot>, oci: string, action: ReleaseAction)
    ensures Record(canonical, Observe(ws), h, oci, action) == [] <==> ws == [] && h == []
  {
    ObserveKeys(ws);
    if ws != [] {
      RecordSubjects(canonical, Observe(ws), h, oci, action);
    }
  }

  /** The snapshot of the release an install or upgrade made names the artifact that
      was attempted and the action, and has no test results. */
  lemma ReleaseIsRecorded(req: Request, a: Action, w: World, down: bool, helm: HelmRun)
    requires (a.Install? || a.Upgrade?) && helm.writes != []
    ensures Observe(helm.writes).Keys != {}
    ensures var o := Observe(helm.writes)[Max(Observe(helm.writes).Keys)];
            exists s | s in Execute(req, a, w, down, helm).world.status.history ::
              && s.Targets(o.name, o.ns, o.version) && s.status == o.status && s.testHooks == None
              && s.oci == w.status.lastAttemptedRevisionDigest && s.action == ActionOf(a)
  {
    var h, oci := if a.Install? then [] else w.status.history, w.status.lastAttemptedRevisionDigest;
    ObserveKeys(helm.writes);
    RecordSubjects(req.canonical, Observe(helm.writes), h, oci, ActionOf(a));
    var h' := Record(req.canonical, Observe(helm.writes), h, oci, ActionOf(a));
    SortedMembers(h');
    assert h'[0] in h' && h'[0] in Sorted(h');
  }

  // ---------- Tests ----------

  /** Helm ran the tests of another release than the latest one. */
  ghost predicate ActedOnOther(helm: HelmRun, cur: Snapshot) {
    && helm.target.Some?
    && var r := helm.target.value;
       !(r.name == cur.name && r.ns == cur.ns && (cur.version == 0 || r.version == cur.version))
  }

  /** The counters after a test that failed, given whether it has results. */
  lemma TestFailureCounts(req: Request, st: Status, tested: bool)
    ensures var st', counted := CountTestFailure(req, st, tested), tested && TestsCount(req, st);
            && st'.failures == st.failures + 1
            && st'.installFailures == st.installFailures + (if counted && st.lastAction == ActionInstall then 1 else 0)
            && st'.upgradeFailures == st.upgradeFailures + (if counted && st.lastAction == ActionUpgrade then 1 else 0)
            && st'.lastAction == st.lastAction && st'.history == st.history
  {
  }

  lemma ResultsRecorded(s: Option<Snapshot>)
    ensures s.Some? && s.value.HasBeenTested() <==> s.Some? && HasResults(s.value)
  {
  }

  /** A test that failed counts against the retries of what was last done exactly if
      its results are recorded and test failures are not ignored. */
  lemma TestCounts(req: Request, w: World, helm: HelmRun)
    requires w.status.history != []
    ensures var acted := RunTest(req, w, helm);
            var st, st', latest := w.status, acted.world.status, Latest(acted.world.status.history);
            var failed := helm.failed || ActedOnOther(helm, Latest(st.history).value);
            var counted := failed && latest.Some? && HasResults(latest.value) && TestsCount(req, st);
            && acted.world.storage == Apply(w.storage, helm.writes)
            && st'.failures == st.failures + (if failed then 1 else 0)
            && st'.installFailures == st.installFailures + (if counted && st.lastAction == ActionInstall then 1 else 0)
            && st'.upgradeFailures == st.upgradeFailures + (if counted && st.lastAction == ActionUpgrade then 1 else 0)
            && st'.lastAction == st.lastAction
            && acted.result == (if !failed || (latest.Some? && HasResults(latest.value)) then Ok
                                else Err(if ActedOnOther(helm, Latest(st.history).value) then ReleaseMismatch else HelmError))
  {
    var h := ObserveAll(req.canonical, TestObserver(req.spec.testFilters), Sorted(w.status.history), helm.writes);
    LatestSorted(h);
    ResultsRecorded(Latest(h));
    TestFailureCounts(req, w.status.(history := Sorted(h)), Latest(h).Some? && Latest(h).value.HasBeenTested());
  }

  // ---------- Remediations ----------

  /** Without a snapshot there is nothing to test or to uninstall. */
  lemma NothingToActOn(req: Request, a: Action, w: World, down: bool, helm: HelmRun)
    requires w.status.history == [] && (a.Test? || a.UninstallRemediation?)
    ensures Execute(req, a, w, down, helm) == Acted(w, Err(NoLatest))
  {
  }

  /** A remediation counts a failure if it did not come off, never against the
      retries, and leaves the last attempted action alone. */
  lemma RemediationCounts(req: Request, a: Action, w: World, down: bool, helm: HelmRun)
    requires TypeOf(a) == TypeRemediate || a.Unlock? || a.CorrectDrift?
    ensures var st, st' := w.status, Execute(req, a, w, down, helm).world.status;
            && st'.installFailures == st.installFailures && st'.upgradeFailures == st.upgradeFailures
            && st'.lastAction == st.lastAction && st'.failures in {st.failures, st.failures + 1}
  {
  }

  lemma UninstallCounts(req: Request, w: World, helm: HelmRun)
    requires w.status.history != []
    ensures var acted := RunUninstallRemediation(req, w, helm);
            var cur := Latest(w.status.history).value;
            var same := SameDigest(acted.world.status.history, cur);
            && acted.world.storage == Apply(w.storage, helm.writes)
            && acted.world.status.failures == w.status.failures + (if helm.failed || ActedOnOther(helm, cur) || same then 1 else 0)
            && acted.result == (if !same then Ok
                                else Err(if ActedOnOther(helm, cur) then ReleaseMismatch
                                         else if helm.failed then HelmError else NoStorageUpdate))
  {
    LatestSorted(ObserveAll(req.canonical, UninstallObserver(ActionUninstallRemediation), Sorted(w.status.history), helm.writes));
    SortedLength(ObserveAll(req.canonical, UninstallObserver(ActionUninstallRemediation), Sorted(w.status.history), helm.writes));
  }

  lemma RollbackCounts(req: Request, w: World, helm: HelmRun)
    requires w.status.history != [] && Target(req, w.status).Some?
    requires var prev, cur := Target(req, w.status).value, Latest(w.status.history).value;
             prev.name == cur.name && prev.ns == cur.ns
    ensures var acted := RunRollback(req, w, helm);
            && acted.world.storage == Apply(w.storage, helm.writes)
            && acted.world.status.failures == w.status.failures + (if helm.failed then 1 else 0)
            && acted.result == (if helm.failed && SameDigest(acted.world.status.history, Latest(w.status.history).value)
                                then Err(HelmError) else Ok)
  {
    LatestSorted(ObserveAll(req.canonical, RollbackObserver, Sorted(w.status.history), helm.writes));
    SortedLength(ObserveAll(req.canonical, RollbackObserver, Sorted(w.status.history), helm.writes));
  }

  /** A rollback that has nothing to go to, or would go to another release, is not
      run. */
  lemma RollbackRefuses(req: Request, w: World, helm: HelmRun)
    ensures var acted, prev, cur := RunRollback(req, w, helm), Target(req, w.status), Latest(w.status.history);
            && (prev.None? || cur.None? ==> acted.result == Err(MissingTarget))
            && (prev.Some? && cur.Some? && (prev.value.name != cur.value.name || prev.value.ns != cur.value.ns) ==>
                  acted.result == Err(ReleaseMismatch))
            && (acted.result == Err(MissingTarget) || acted.result == Err(ReleaseMismatch) ==>
                  acted.world.storage == w.storage && acted.world.status.failures == w.status.failures)
  {
  }

  /** An unlock rewrites a pending release as failed and nothing else, or fails and
      is counted. */
  lemma UnlockContract(req: Request, w: World, down: bool, helm: HelmRun)
    ensures var acted, last := RunUnlock(req, w, down, helm), Last(w.storage, req.spec.name);
            var pending := last.Some? && Interrupted(last.value.status);
            && acted.result == (if down || (pending && helm.failed) then Err(StorageError) else Ok)
            && acted.world.status.failures == w.status.failures + (if !down && pending && helm.failed then 1 else 0)
            && (if down || !pending || helm.failed then acted.world.storage == w.storage && acted.world.status.history == w.status.history
                else exists text :: acted.world.storage
                       == w.storage[KeyOf(last.value) := last.value.(status := StatusFailed, description := text)])
  {
    if !down && Last(w.storage, req.spec.name).Some? {
      var r := Unlocked(Last(w.storage, req.spec.name).value);
      assert r == Last(w.storage, req.spec.name).value.(status := StatusFailed, description := r.description);
    }
  }

  // ---------- Answers ----------

  /** What is answered once a remediation has come off: the interval of a retry, an
      end if the retries are used up, or another round. An upgrade that was
      uninstalled always gets another round, in which it is installed. */
  ghost function AnswerToRemedy(req: Request, st: Status): Result {
    if Retries(req, st) then Failure(RetryAfterInterval)
    else if Spent(req, st) && !(st.lastAction == ActionUpgrade && RemediedBy(req, st) == UninstallStrategy)
    then Failure(ExceededMaxRetries)
    else Failure(MustRequeue)
  }

  /** What is answered if an action would be of a type that has run. */
  ghost function AnswerToRepeat(req: Request, st: Status): Result {
    if Retries(req, st) then Failure(RetryAfterInterval)
    else if Spent(req, st) then Done
    else Failure(MustRequeue)
  }

  ghost function AnswerToAction(req: Request, a: Action, st: Status, result: ActionResult): Result {
    match result
    case Panic => Panicked
    case Err(error) => if Retries(req, st) then Failure(RetryAfterInterval) else Failure(ActionFailed(error))
    case Ok => if a.Rollback? || a.UninstallRemediation? then AnswerToRemedy(req, st) else Failure(PatchError)
  }

  ghost function AnswerToDecision(req: Request, e: Event, ran: seq<ReconcilerType>): Result {
    match e.next
    case Nothing => Done
    case Fail(error) => if error == ExceededMaxRetries && !Counts(e.decided.status) then Panicked else Failure(error)
    case Run(a) =>
      if TypeOf(a) in ran then AnswerToRepeat(req, e.decided.status)
      else if TypeOf(a) == TypeRemediate && !Counts(e.decided.status) then Panicked
      else if TypeOf(a) == TypeRemediate && RemediedBy(req, e.decided.status) == RollbackStrategy && e.turn.enqueued
      then Failure(MustRequeue)
      else Failure(PatchError)
  }

  /** The answer to the last event of a reconciliation. */
  ghost function Answer(req: Request, e: Event, ran: seq<ReconcilerType>): Result {
    if e.ran.Some?
    then AnswerToAction(req, e.ran.value, e.after.status,
                        Execute(req, e.ran.value, e.decided, e.turn.actionDown, e.turn.helm).result)
    else AnswerToDecision(req, e, ran)
  }

  lemma ConcludeAnswers(req: Request, a: Action, acted: Acted, t: Turn, e: Event)
    requires Conclude(req, a, acted, t, e).Stop?
    ensures Conclude(req, a, acted, t, e) == Stop(Some(e), acted.world, AnswerToAction(req, a, acted.world.status, acted.result))
  {
  }

  lemma ProceedAnswers(req: Request, d: Decision, e: Event, previous: seq<ReconcilerType>, t: Turn)
    requires e.turn == t && e.next == d.next && e.after == e.decided && e.ran.None? && Proceed(req, d, e, previous, t).Stop?
    ensures var r := Proceed(req, d, e, previous, t);
            && r.last.Some? && r.result == Answer(req, r.last.value, previous)
            && (r.result == Failure(PatchError) && d.next != Fail(PatchError) ==>
                  if r.last.value.ran.Some? then !t.patchAfter else !t.patchBefore)
  {
    if d.next.Run? {
      var a := d.next.action;
      var acted := Execute(req, a, e.decided, t.actionDown, t.helm);
      var e' := e.(ran := Some(a), after := acted.world);
      if Conclude(req, a, acted, t, e').Stop? {
        ConcludeAnswers(req, a, acted, t, e');
      }
    }
  }

  /** What a turn that stops answers. */
  lemma TurnAnswers(req: Request, w: World, previous: seq<ReconcilerType>, t: Turn)
    requires Turning(req, w, previous, t).Stop?
    ensures var r := Turning(req, w, previous, t);
            && r.result == (if r.last.Some? then Answer(req, r.last.value, previous)
                            else Failure(if t.canceled then Canceled else StateError))
            && (r.result == Failure(PatchError) ==> r.last.Some? && (if r.last.value.ran.Some? then !t.patchAfter else !t.patchBefore))
  {
    var seen := Seen(w, t);
    var state := Determine(req, seen.status, seen.storage, t.lastDown, t.diff);
    if !t.canceled && state.Some? {
      var (d, e) := Decided(req, seen, state.value, t);
      assert Turning(req, w, previous, t) == Proceed(req, d, e, previous, t);
      ProceedAnswers(req, d, e, previous, t);
      NeverFailsToPatch(req, SortedByLookup(req, seen.status, seen.storage, t.lastDown), seen.storage, state.value, t.getDown);
    }
  }

  lemma NeverFailsToPatch(req: Request, st: Status, sto: Storage, state: ReleaseStatus, down: bool)
    ensures ActionForState(req, st, sto, state, down).next != Fail(PatchError)
  {
  }

  /** What a reconciliation answers follows from its last event, unless that one
      called for another turn, and the turn was interrupted or could not tell
      the state. */
  ghost predicate Answered(req: Request, previous: seq<ReconcilerType>, o: Outcome) {
    || ((o.result == Failure(Canceled) || o.result == Failure(StateError)) && WentOn(o.events))
    || (o.events != [] && o.result == Answer(req, o.events[|o.events| - 1], previous + TypesRun(o.events[..|o.events| - 1])))
  }

  /** The last event, if there is one, ran an action after which the loop goes on. */
  ghost predicate WentOn(events: seq<Event>) {
    events != [] ==> var e := events[|events| - 1]; e.ran.Some? && TypeOf(e.ran.value) != TypeRemediate
  }

  lemma AnsweredCons(req: Request, previous: seq<ReconcilerType>, e: Event, rest: Outcome)
    requires e.ran.Some? && TypeOf(e.ran.value) != TypeRemediate && Answered(req, previous + [TypeOf(e.ran.value)], rest)
    ensures Answered(req, previous, Outcome([e] + rest.events, rest.world, rest.result))
  {
    if rest.events != [] {
      var init := rest.events[..|rest.events| - 1];
      assert ([e] + rest.events)[..|rest.events|] == [e] + init;
      TypesRunCons(e, init);
      assert previous + [TypeOf(e.ran.value)] + TypesRun(init) == previous + TypesRun([e] + init);
    }
  }

  lemma {:induction false} RunAnswers(req: Request, w: World, previous: seq<ReconcilerType>, env: nat -> Turn, n: nat)
    ensures Answered(req, previous, Reconciling(req, w, previous, env, n))
    decreases Remaining(previous)
  {
    match Turning(req, w, previous, env(n))
    case Stop(last, _, _) =>
      TurnAnswers(req, w, previous, env(n));
      if last.Some? {
        assert [last.value][..0] == [] && previous + [] == previous;
      }
    case Go(e) =>
      GoShape(req, w, previous, env(n));
      var previous' := previous + [TypeOf(e.ran.value)];
      RunAnswers(req, e.after, previous', env, n + 1);
      AnsweredCons(req, previous, e, Reconciling(req, e.after, previous', env, n + 1));
  }

  /** A reconciliation answers what its last event calls for. */
  lemma ReconcileAnswers(req: Request, w: World, env: nat -> Turn)
    ensures Answered(req, [], Reconcile(req, w, env))
  {
    RunAnswers(req, w, [], env, 0);
  }

  /** The event ran a remediation, which came off. */
  ghost predicate CameOff(req: Request, e: Event) {
    && (e.ran == Some(Rollback) || e.ran == Some(UninstallRemediation))
    && Execute(req, e.ran.value, e.decided, e.turn.actionDown, e.turn.helm).result.Ok?
  }

  /** A reconciliation that ends with a remediation that came off reports exceeded
      retries exactly if there is no retry, the failures are above a limit that
      is not negative, and it is not an upgrade that was uninstalled. */
  lemma RemediedReports(req: Request, w: World, env: nat -> Turn, e: Event)
    requires var events := Reconcile(req, w, env).events;
             events != [] && e == events[|events| - 1] && CameOff(req, e)
    ensures var result, st := Reconcile(req, w, env).result, e.after.status;
            && (result == Failure(ExceededMaxRetries) <==>
                  !Retries(req, st) && Spent(req, st) && !(st.lastAction == ActionUpgrade && RemediedBy(req, st) == UninstallStrategy))
            && (result == Failure(RetryAfterInterval) <==> Retries(req, st))
            && (result in {Failure(ExceededMaxRetries), Failure(RetryAfterInterval), Failure(MustRequeue)})
  {
    ReconcileAnswers(req, w, env);
  }
}
