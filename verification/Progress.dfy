/** A Helm that works brings a release to what is asked for: from every world in
    which history and storage agree, and with retries left, two attempts do. */
module Progress {
  import opened Api
  import opened Snapshots
  import opened Releases
  import opened Recording
  import opened Requests
  import opened State
  import opened Actions
  import opened AtomicRelease
  import opened Runs
  import opened Coherence
  import opened Recovery
  import opened Completion
  import opened UpgradeBudget
  import D = Decisions
  import Outcomes

  // ---------- What is assumed ----------

  /** Nothing interferes with the turn, and the cluster is as it should be. */
  ghost predicate Quiet(req: Request, t: Turn) {
    Calm(t) && !t.actionDown && (t.diff.Unchanged? || !req.spec.MustDetectChanges())
  }

  /** Helm does what the action it runs is for. */
  ghost predicate Works(req: Request, a: Action, sto: Storage, helm: HelmRun) {
    var last := Last(Apply(sto, helm.writes), req.spec.name);
    match a
    case Install => Fulfils(req, sto, helm)
    case Upgrade => Fulfils(req, sto, helm)
    case Rollback => !helm.failed && Behaved(req, a, sto, helm) && last.Some? && last.value.status == Deployed
    case UninstallRemediation => Behaved(req, a, sto, helm) && (last.None? || last.value.status == Uninstalled)
    case Unlock => !helm.failed
    case _ => true
  }

  ghost predicate AllWork(req: Request, events: seq<Event>) {
    forall e | e in events && e.ran.Some? :: Works(req, e.ran.value, e.decided.storage, e.turn.helm)
  }

  ghost predicate InBudget(req: Request, st: Status) {
    !req.spec.installRemediation.RetriesExhausted(st) && !req.spec.upgradeRemediation.RetriesExhausted(st)
  }

  /** If a failure is to be remediated, there is a way to: a known strategy and,
      for a rollback, a release to go back to. */
  ghost predicate Remediable(req: Request, st: Status) {
    var active := ActiveRemediation(req, st);
    active.Some? && !ActiveRetry(req, st) && active.value.FailureCount(st) > 0 ==>
      active.value.GetStrategy() == UninstallStrategy
      || (active.value.GetStrategy() == RollbackStrategy && RollbackTarget(req, st).Some?)
  }

  /** The reconciliation ends without an error, in sync. */
  ghost predicate Synced(o: Outcome) {
    o.result.Done? && o.events != [] && o.events[|o.events| - 1].state.InSync?
  }

  // ---------- The first event ----------

  /** An action that is decided in a quiet turn is run, unless its type was. */
  lemma FirstRuns(req: Request, w: World, previous: seq<ReconcilerType>, env: nat -> Turn, n: nat, state: ReleaseStatus)
    requires Calm(env(n)) && Determine(req, w.status, w.storage, false, env(n).diff) == Some(state)
    requires var (d, e) := Decided(req, w, state, env(n));
             && d.next.Run? && TypeOf(d.next.action) !in previous
             && (TypeOf(d.next.action) == TypeRemediate ==> ActiveRemediation(req, d.status).Some?)
    ensures var (d, e) := Decided(req, w, state, env(n));
            var o := Reconciling(req, w, previous, env, n);
            && o.events != [] && o.events[0].ran == Some(d.next.action)
            && o.events[0].decided == e.decided && o.events[0].turn == env(n)
  {
    var (d, e) := Decided(req, w, state, env(n));
    assert Turning(req, w, previous, env(n)) == Proceed(req, d, e, previous, env(n));
    ProceedRuns(req, d, e, previous, env(n));
  }

  lemma ProceedRuns(req: Request, d: Decision, e: Event, previous: seq<ReconcilerType>, t: Turn)
    requires Calm(t) && d.next.Run? && TypeOf(d.next.action) !in previous
    requires TypeOf(d.next.action) == TypeRemediate ==> ActiveRemediation(req, e.decided.status).Some?
    ensures var r := Proceed(req, d, e, previous, t);
            var l := if r.Go? then Some(r.event) else r.last;
            && l == Some(e.(ran := Some(d.next.action), after := Execute(req, d.next.action, e.decided, t.actionDown, t.helm).world))
            && (TypeOf(d.next.action) == TypeRemediate ==> r.Stop? && r.world == l.value.after)
  {
  }

  lemma FirstWorks(req: Request, o: Outcome, a: Action)
    requires AllWork(req, o.events) && o.events != [] && o.events[0].ran == Some(a)
    ensures Works(req, a, o.events[0].decided.storage, o.events[0].turn.helm)
  {
    assert o.events[0] in o.events;
  }

  // ---------- Without a failure ----------

  lemma SteadyDecides(req: Request, st: Status, sto: Storage, state: ReleaseStatus)
    requires InBudget(req, st) && state in {Absent, OutOfSync, Unmanaged, InSync}
    ensures var d := ActionForState(req, st, sto, state, false);
            (d.next.Run? && TypeOf(d.next.action) == TypeRelease) || (state.InSync? && !ForceRequested(req, st))
  {
  }

  /** Where a release action is decided, it is run, works, and ends in sync. */
  lemma ReleaseSyncs(req: Request, w: World, previous: seq<ReconcilerType>, env: nat -> Turn, n: nat, state: ReleaseStatus)
    requires Agrees(req, w) && !req.spec.testEnable && TypeRelease !in previous && Quiet(req, env(n)) && Quiet(req, env(n + 1))
    requires Determine(req, w.status, w.storage, false, env(n).diff) == Some(state)
    requires var (d, e) := Decided(req, w, state, env(n));
             d.next.Run? && TypeOf(d.next.action) == TypeRelease
    requires AllWork(req, Reconciling(req, w, previous, env, n).events)
    ensures Synced(Reconciling(req, w, previous, env, n))
  {
    var (d, e) := Decided(req, w, state, env(n));
    FirstRuns(req, w, previous, env, n, state);
    FirstWorks(req, Reconciling(req, w, previous, env, n), d.next.action);
    ReleaseCompletes(req, w, previous, env, n, state);
  }

  lemma InSyncEnds(req: Request, w: World, previous: seq<ReconcilerType>, env: nat -> Turn, n: nat)
    requires Calm(env(n)) && Determine(req, w.status, w.storage, false, env(n).diff) == Some(InSync) && !ForceRequested(req, w.status)
    ensures Synced(Reconciling(req, w, previous, env, n))
  {
    InSyncStops(req, w, previous, env(n));
    var r := Turning(req, w, previous, env(n));
    OneTurnFrom(req, w, previous, env, n, r.last.value, r.world, r.result);
  }

  /** A release that is not failed or locked is in sync after one reconciliation. */
  lemma SteadySyncs(req: Request, w: World, previous: seq<ReconcilerType>, env: nat -> Turn, n: nat, state: ReleaseStatus)
    requires Agrees(req, w) && InBudget(req, w.status) && !req.spec.testEnable && TypeRelease !in previous
    requires Quiet(req, env(n)) && Quiet(req, env(n + 1))
    requires Determine(req, w.status, w.storage, false, env(n).diff) == Some(state) && state in {Absent, OutOfSync, Unmanaged, InSync}
    requires AllWork(req, Reconciling(req, w, previous, env, n).events)
    ensures Synced(Reconciling(req, w, previous, env, n))
  {
    SteadyDecides(req, SortedByLookup(req, w.status, w.storage, false), w.storage, state);
    if state.InSync? && !ForceRequested(req, w.status) {
      InSyncEnds(req, w, previous, env, n);
    } else {
      ReleaseSyncs(req, w, previous, env, n, state);
    }
  }

  // ---------- After a remediation ----------

  /** Whatever a quiet turn finds next, it is not a failure. */
  ghost predicate Poised(req: Request, w: World) {
    && Agrees(req, w) && InBudget(req, w.status)
    && var last := Last(w.storage, req.spec.name);
       last.None? || last.value.status == Uninstalled || (last.value.status == Deployed && w.status.history != [])
  }

  lemma PoisedState(req: Request, w: World, diff: Diff)
    requires Poised(req, w) && !req.spec.testEnable && (diff.Unchanged? || !req.spec.MustDetectChanges())
    ensures Determine(req, w.status, w.storage, false, diff) in {Some(Absent), Some(OutOfSync), Some(InSync)}
  {
    if w.status.history != [] && Last(w.storage, req.spec.name).Some? {
      MatchesVerifies(Latest(w.status.history).value, Last(w.storage, req.spec.name).value);
    }
  }

  /** What a rollback leaves of history and storage. */
  lemma RollbackLeaves(req: Request, h: seq<Snapshot>, sto: Storage, ws: seq<Write>)
    requires Coherent(req.spec.name, req.spec.ns, h, sto) && h != [] && Last(sto, req.spec.name).Some?
    requires Tame(RollbackObserver, req.spec.name, req.spec.ns, sto, ws)
    ensures var h' := ObserveAll(req.canonical, RollbackObserver, Sorted(h), ws);
            Coherent(req.spec.name, req.spec.ns, h', Apply(sto, ws)) && h' != []
  {
    SortedCoherent(h, sto, req.spec.name, req.spec.ns);
    ObserveAllKeeps(req.canonical, RollbackObserver, Sorted(h), sto, ws, req.spec.name, req.spec.ns);
  }

  lemma RollbackPoises(req: Request, w: World, down: bool, helm: HelmRun)
    requires Agrees(req, w) && InBudget(req, w.status) && w.status.history != [] && RollbackTarget(req, w.status).Some?
    requires Last(w.storage, req.spec.name).Some? && Works(req, Rollback, w.storage, helm)
    ensures Poised(req, Execute(req, Rollback, w, down, helm).world)
  {
    RollbackRuns(req, w, down, helm);
    RollbackLeaves(req, w.status.history, w.storage, helm.writes);
  }

  lemma UninstallPoises(req: Request, w: World, down: bool, helm: HelmRun)
    requires Agrees(req, w) && InBudget(req, w.status) && w.status.history != []
    requires Last(w.storage, req.spec.name).Some? && Works(req, UninstallRemediation, w.storage, helm)
    ensures Poised(req, Execute(req, UninstallRemediation, w, down, helm).world)
  {
    UninstallAgrees(req, w, helm);
    UninstallKeepsCounters(req, w, helm);
  }

  lemma UninstallKeepsCounters(req: Request, w: World, helm: HelmRun)
    ensures var w' := RunUninstallRemediation(req, w, helm).world;
            && w'.status.installFailures == w.status.installFailures && w'.status.upgradeFailures == w.status.upgradeFailures
            && (w.status.history != [] ==> w'.storage == Apply(w.storage, helm.writes))
  {
  }

  // ---------- With a failure ----------

  /** What is decided about a failed release that can be remediated. */
  lemma FailedDecides(req: Request, st: Status, sto: Storage)
    requires InBudget(req, st) && Remediable(req, st)
    ensures var d := ActionForState(req, st, sto, Failed, false);
            && d.next in {Run(Upgrade), Run(Rollback), Run(UninstallRemediation)}
            && d.status == RememberForce(req, st).(history := d.status.history) && InBudget(req, d.status)
            && (d.next != Run(Upgrade) ==> ActiveRemediation(req, d.status).Some?)
            && (d.next == Run(Rollback) ==> RollbackTarget(req, d.status).Some?)
  {
    var active := ActiveRemediation(req, st);
    DecisionFrame(req, st, sto, Failed, false);
    if active.Some? {
      var ignore := active.value.MustIgnoreTestFailures(req.spec.testIgnoreFailures);
      TruncateKeepsPrevious(st.history, ignore);
    }
  }

  lemma FailedFacts(req: Request, w: World, t: Turn)
    requires Agrees(req, w) && InBudget(req, w.status) && Remediable(req, w.status) && Calm(t)
    requires Determine(req, w.status, w.storage, false, t.diff) == Some(Failed)
    ensures var (d, e) := Decided(req, w, Failed, t);
            && d.next in {Run(Upgrade), Run(Rollback), Run(UninstallRemediation)}
            && e.decided == World(d.status, w.storage) && Agrees(req, e.decided) && InBudget(req, d.status)
            && d.status.history != [] && Last(w.storage, req.spec.name).Some?
            && (d.next != Run(Upgrade) ==> ActiveRemediation(req, d.status).Some?)
            && (d.next == Run(Rollback) ==> RollbackTarget(req, d.status).Some?)
  {
    var st := w.status.(history := Sorted(w.status.history));
    assert SortedByLookup(req, w.status, w.storage, false) == st;
    PreviousSorted(w.status.history, IgnoreTests(req));
    FailedDecides(req, st, w.storage);
    LookupAgrees(req, w, false);
    DecisionAgrees(req, World(st, w.storage), Failed, false);
    SortedLength(w.status.history);
    DecisionPrefix(req, st, w.storage, Failed, false);
  }

  /** A failed release is in sync after one reconciliation, or poised to be. */
  lemma FailedSettles(req: Request, w: World, previous: seq<ReconcilerType>, env: nat -> Turn, n: nat)
    requires Agrees(req, w) && InBudget(req, w.status) && Remediable(req, w.status) && !req.spec.testEnable
    requires TypeRelease !in previous && TypeRemediate !in previous && Quiet(req, env(n)) && Quiet(req, env(n + 1))
    requires Determine(req, w.status, w.storage, false, env(n).diff) == Some(Failed)
    requires AllWork(req, Reconciling(req, w, previous, env, n).events)
    ensures Settles(req, Reconciling(req, w, previous, env, n))
  {
    var (d, e) := Decided(req, w, Failed, env(n));
    FailedFacts(req, w, env(n));
    if d.next == Run(Upgrade) {
      ReleaseSyncs(req, w, previous, env, n, Failed);
    } else {
      FirstRuns(req, w, previous, env, n, Failed);
      FirstWorks(req, Reconciling(req, w, previous, env, n), d.next.action);
      RemediationPoises(req, d, e, env(n));
      RemediationEnds(req, w, previous, env, n);
    }
  }

  lemma RemediationPoises(req: Request, d: Decision, e: Event, t: Turn)
    requires d.next == Run(Rollback) || d.next == Run(UninstallRemediation)
    requires Agrees(req, e.decided) && InBudget(req, e.decided.status) && e.decided.status.history != []
    requires Last(e.decided.storage, req.spec.name).Some? && Works(req, d.next.action, e.decided.storage, t.helm)
    requires d.next == Run(Rollback) ==> RollbackTarget(req, e.decided.status).Some?
    ensures Poised(req, Execute(req, d.next.action, e.decided, t.actionDown, t.helm).world)
  {
    if d.next == Run(Rollback) {
      RollbackPoises(req, e.decided, t.actionDown, t.helm);
    } else {
      UninstallPoises(req, e.decided, t.actionDown, t.helm);
    }
  }

  /** A reconciliation ends with the world that a remediation leaves. */
  lemma RemediationEnds(req: Request, w: World, previous: seq<ReconcilerType>, env: nat -> Turn, n: nat)
    requires Calm(env(n)) && TypeRemediate !in previous
    requires Determine(req, w.status, w.storage, false, env(n).diff) == Some(Failed)
    requires var (d, e) := Decided(req, w, Failed, env(n));
             d.next.Run? && TypeOf(d.next.action) == TypeRemediate && ActiveRemediation(req, d.status).Some?
    ensures var (d, e) := Decided(req, w, Failed, env(n));
            Reconciling(req, w, previous, env, n).world == Execute(req, d.next.action, e.decided, env(n).actionDown, env(n).helm).world
  {
    var (d, e) := Decided(req, w, Failed, env(n));
    assert Turning(req, w, previous, env(n)) == Proceed(req, d, e, previous, env(n));
    ProceedRuns(req, d, e, previous, env(n));
  }

  // ---------- With a pending release ----------

  /** What is unlocked is as remediable as it was. */
  lemma UnlockedStill(req: Request, w: World, helm: HelmRun)
    requires Agrees(req, w) && InBudget(req, w.status) && Remediable(req, w.status) && Jammed(req, w.storage) && !helm.failed
    ensures var w' := RunUnlock(req, w, false, helm).world;
            && Agrees(req, w') && InBudget(req, w'.status) && Remediable(req, w'.status)
  {
    var r := Last(w.storage, req.spec.name).value;
    UnlockAgrees(req, w, false, helm);
    UnlockRuns(req, w, helm);
    LastGreatest(w.storage, req.spec.name);
    if w.status.history != [] {
      LatestMember(w.status.history);
      UnlockTarget(req, w.status.history, Unlocked(r));
    }
  }

  /** A pending release is found failed or unmanaged once it is unlocked. */
  lemma UnlockedFound(req: Request, w: World, helm: HelmRun, diff: Diff)
    requires Agrees(req, w) && Jammed(req, w.storage) && !helm.failed
    ensures var w' := RunUnlock(req, w, false, helm).world;
            Determine(req, w'.status, w'.storage, false, diff) in {Some(Failed), Some(Unmanaged)}
  {
    UnlockRecovers(req, w, helm, diff);
  }

  /** In sync, or poised to be. */
  ghost predicate Settles(req: Request, o: Outcome) {
    Synced(o) || Poised(req, o.world)
  }

  lemma SettledBefore(req: Request, u: Event, rest: Outcome)
    ensures Settles(req, rest) ==> Settles(req, Outcome([u] + rest.events, rest.world, rest.result))
    ensures AllWork(req, [u] + rest.events) ==> AllWork(req, rest.events)
  {
    assert forall e | e in rest.events :: e in [u] + rest.events;
  }

  /** The rest of a reconciliation, after a pending release was unlocked. */
  lemma UnlockedSettles(req: Request, w: World, previous: seq<ReconcilerType>, env: nat -> Turn, n: nat)
    requires Agrees(req, w) && InBudget(req, w.status) && !req.spec.testEnable
    requires TypeRelease !in previous && TypeRemediate !in previous && Quiet(req, env(n)) && Quiet(req, env(n + 1))
    requires Determine(req, w.status, w.storage, false, env(n).diff) == Some(Failed) ==> Remediable(req, w.status)
    requires Determine(req, w.status, w.storage, false, env(n).diff)
               in {Some(Absent), Some(OutOfSync), Some(Unmanaged), Some(InSync), Some(Failed)}
    requires AllWork(req, Reconciling(req, w, previous, env, n).events)
    ensures Settles(req, Reconciling(req, w, previous, env, n))
  {
    var state := Determine(req, w.status, w.storage, false, env(n).diff).value;
    if state.Failed? {
      FailedSettles(req, w, previous, env, n);
    } else {
      SteadySyncs(req, w, previous, env, n, state);
    }
  }

  lemma JammedRuns(req: Request, w: World, t: Turn) returns (u: Event)
    requires Jammed(req, w.storage) && Calm(t) && !t.actionDown && !t.helm.failed
    ensures Turning(req, w, [], t) == Go(u) && u.ran == Some(Unlock) && u.turn == t && u.decided.storage == w.storage
    ensures u.after == RunUnlock(req, World(RememberForce(req, w.status), w.storage), false, t.helm).world
  {
    LockedIsUnlockedFirst(req, w, [], t);
    TurnRecorded(req, w, [], t);
    u := Turning(req, w, [], t).event;
  }

  /** The first turn unlocks, and leaves what can be settled. */
  lemma JammedUnlocks(req: Request, w: World, t: Turn, diff: Diff) returns (u: Event)
    requires Agrees(req, w) && InBudget(req, w.status) && Remediable(req, w.status)
    requires Jammed(req, w.storage) && Calm(t) && !t.actionDown && !t.helm.failed
    ensures Turning(req, w, [], t) == Go(u) && u.ran == Some(Unlock)
    ensures Agrees(req, u.after) && InBudget(req, u.after.status) && Remediable(req, u.after.status)
    ensures Determine(req, u.after.status, u.after.storage, false, diff) in {Some(Failed), Some(Unmanaged)}
  {
    var w1 := World(RememberForce(req, w.status), w.storage);
    u := JammedRuns(req, w, t);
    UnlockedStill(req, w1, t.helm);
    UnlockedFound(req, w1, t.helm, diff);
  }

  /** A Helm that works settles the release in what remains of a reconciliation. */
  ghost predicate SettlesFrom(req: Request, w: World, previous: seq<ReconcilerType>, env: nat -> Turn, n: nat) {
    var o := Reconciling(req, w, previous, env, n);
    AllWork(req, o.events) ==> Settles(req, o)
  }

  lemma UnlockedSettlesFrom(req: Request, w: World, env: nat -> Turn)
    requires Agrees(req, w) && InBudget(req, w.status) && Remediable(req, w.status) && !req.spec.testEnable
    requires Quiet(req, env(1)) && Quiet(req, env(2))
    requires Determine(req, w.status, w.storage, false, env(1).diff) in {Some(Failed), Some(Unmanaged)}
    ensures SettlesFrom(req, w, [TypeUnlock], env, 1)
  {
    if AllWork(req, Reconciling(req, w, [TypeUnlock], env, 1).events) {
      UnlockedSettles(req, w, [TypeUnlock], env, 1);
    }
  }

  lemma UnlockThenSettles(req: Request, w: World, env: nat -> Turn, u: Event)
    requires Turning(req, w, [], env(0)) == Go(u) && u.ran == Some(Unlock)
    requires SettlesFrom(req, u.after, [TypeUnlock], env, 1) && AllWork(req, Reconcile(req, w, env).events)
    ensures Settles(req, Reconcile(req, w, env))
  {
    var rest := Reconciling(req, u.after, [TypeUnlock], env, 1);
    FirstThen(req, w, env, u, TypeUnlock, rest);
    SettledBefore(req, u, rest);
  }

  lemma JammedSettles(req: Request, w: World, env: nat -> Turn)
    requires Agrees(req, w) && InBudget(req, w.status) && Remediable(req, w.status) && !req.spec.testEnable
    requires Jammed(req, w.storage) && Quiet(req, env(0)) && Quiet(req, env(1)) && Quiet(req, env(2)) && !env(0).helm.failed
    requires AllWork(req, Reconcile(req, w, env).events)
    ensures Settles(req, Reconcile(req, w, env))
  {
    var u := JammedUnlocks(req, w, env(0), env(1).diff);
    UnlockedSettlesFrom(req, u.after, env);
    UnlockThenSettles(req, w, env, u);
  }

  // ---------- Attempts ----------

  /** An attempt at the request that is left alone, with a Helm that works. */
  ghost predicate LeftAlone(req: Request, w: World, a: Attempt) {
    && a.req == req && a.crash.None? && (forall i :: Quiet(req, a.env(i)))
    && AllWork(req, Attempted(w, a).events)
  }

  /** A pending release can be unlocked. */
  lemma FirstUnlocks(req: Request, w: World, env: nat -> Turn)
    requires Jammed(req, w.storage) && Calm(env(0)) && !env(0).actionDown && AllWork(req, Reconcile(req, w, env).events)
    ensures !env(0).helm.failed
  {
    FirstRuns(req, w, [], env, 0, Locked);
    FirstWorks(req, Reconcile(req, w, env), Unlock);
  }

  lemma AttemptSettles(req: Request, w: World, env: nat -> Turn)
    requires Agrees(req, w) && InBudget(req, w.status) && !req.spec.testEnable
    requires Determine(req, w.status, w.storage, false, env(0).diff) in {Some(Failed), Some(Locked)} ==> Remediable(req, w.status)
    requires (forall i :: Quiet(req, env(i))) && AllWork(req, Reconcile(req, w, env).events)
    requires Determine(req, w.status, w.storage, false, env(0).diff).Some?
    ensures Settles(req, Reconcile(req, w, env))
  {
    if Jammed(req, w.storage) {
      FirstUnlocks(req, w, env);
      JammedSettles(req, w, env);
    } else {
      QuietState(req, w, env(0));
      UnlockedSettles(req, w, [], env, 0);
    }
  }

  lemma QuietState(req: Request, w: World, t: Turn)
    requires !Jammed(req, w.storage) && Quiet(req, t) && !req.spec.testEnable
    requires Determine(req, w.status, w.storage, false, t.diff).Some?
    ensures Determine(req, w.status, w.storage, false, t.diff)
              in {Some(Absent), Some(OutOfSync), Some(Unmanaged), Some(InSync), Some(Failed)}
  {
  }

  lemma PoisedRecorded(req: Request, w: World)
    requires Poised(req, w)
    ensures Poised(req, World(Prepare(req, w.status), w.storage)) && Poised(req, World(Handled(req, w.status), w.storage))
  {
  }

  lemma PoisedSyncs(req: Request, w: World, a: Attempt)
    requires Poised(req, w) && !req.spec.testEnable && LeftAlone(req, w, a)
    ensures Synced(Attempted(w, a))
  {
    var w' := World(Prepare(req, w.status), w.storage);
    PoisedRecorded(req, w);
    PoisedState(req, w', a.env(0).diff);
    SteadySyncs(req, w', [], a.env, 0, Determine(req, w'.status, w'.storage, false, a.env(0).diff).value);
  }

  /** From every world in which history and storage agree, the state of the release
      can be told, retries are left, and what has failed can be remediated, at
      most two attempts that are left alone, with a Helm that works, end in
      sync: the first, or if that one has to remediate, the second. */
  lemma TwoAttemptsSync(req: Request, w: World, first: Attempt, second: Attempt)
    requires Agrees(req, w) && !req.spec.testEnable
    requires InBudget(req, Prepare(req, w.status)) && Determine(req, w.status, w.storage, false, Unchanged).Some?
    requires Determine(req, w.status, w.storage, false, Unchanged) in {Some(Failed), Some(Locked)} ==> Remediable(req, w.status)
    requires LeftAlone(req, w, first) && LeftAlone(req, Survives(w, first), second)
    ensures Synced(Attempted(w, first)) || Synced(Attempted(Survives(w, first), second))
  {
    var w' := World(Prepare(req, w.status), w.storage);
    StateTold(req, w, first.env(0));
    AttemptSettles(req, w', first.env);
    if !Synced(Attempted(w, first)) {
      PoisedRecorded(req, Attempted(w, first).world);
      PoisedSyncs(req, Survives(w, first), second);
    }
  }

  /** The state that a quiet turn tells is the one that an unchanged cluster gives. */
  lemma StateTold(req: Request, w: World, t: Turn)
    requires Quiet(req, t)
    ensures Determine(req, Prepare(req, w.status), w.storage, false, t.diff) == Determine(req, w.status, w.storage, false, Unchanged)
  {
  }

  // ---------- An upgrade that was uninstalled ----------

  /** A failed upgrade whose failures are remediated by uninstalling, used up or
      not, while installs have retries left. */
  ghost predicate Doomed(req: Request, w: World) {
    && Agrees(req, w) && Settled(req, w.status) && w.status.lastAction == ActionUpgrade && !D.Retries(req, w.status)
    && w.status.upgradeFailures > 0 && !D.ForcePending(req, w.status)
    && req.spec.upgradeRemediation.strategy == Some(UninstallStrategy)
    && (D.Spent(req, w.status) ==> D.RemediesLast(req, w.status))
    && !D.Exceeded(req.spec.installRemediation.retries, w.status.installFailures)
    && w.status.history != [] && Last(w.storage, req.spec.name).Some?
    && Last(w.storage, req.spec.name).value.status == StatusFailed
  }

  lemma DoomedIsFailed(req: Request, w: World, diff: Diff)
    requires Doomed(req, w)
    ensures Determine(req, w.status, w.storage, false, diff) == Some(Failed)
  {
    MatchesVerifies(Latest(w.status.history).value, Last(w.storage, req.spec.name).value);
  }

  lemma DoomedDecision(req: Request, w: World)
    requires Doomed(req, w)
    ensures var d := ActionForState(req, w.status.(history := Sorted(w.status.history)), w.storage, Failed, false);
            d.next == Run(UninstallRemediation) && d.status == RememberForce(req, w.status).(history := d.status.history)
  {
    var st := w.status.(history := Sorted(w.status.history));
    D.FailedDecidesExactly(req, st, w.storage, false, Run(UninstallRemediation));
    DecisionFrame(req, st, w.storage, Failed, false);
  }

  lemma DecidedAgrees(req: Request, w: World)
    requires Agrees(req, w) && w.status.history != []
    ensures var d := ActionForState(req, w.status.(history := Sorted(w.status.history)), w.storage, Failed, false);
            Agrees(req, World(d.status, w.storage)) && d.status.history != []
  {
    var st := w.status.(history := Sorted(w.status.history));
    SortedCoherent(w.status.history, w.storage, req.spec.name, req.spec.ns);
    DecisionAgrees(req, World(st, w.storage), Failed, false);
    DecisionPrefix(req, st, w.storage, Failed, false);
  }

  lemma DoomedDecides(req: Request, w: World, t: Turn)
    requires Doomed(req, w) && Calm(t)
    ensures Determine(req, w.status, w.storage, false, t.diff) == Some(Failed)
    ensures var (d, e) := Decided(req, w, Failed, t);
            && d.next == Run(UninstallRemediation) && ActiveRemediation(req, d.status).Some?
            && e.decided == World(d.status, w.storage) && Agrees(req, e.decided) && d.status.history != []
            && d.status == RememberForce(req, w.status).(history := d.status.history)
  {
    DoomedIsFailed(req, w, t.diff);
    DoomedDecision(req, w);
    DecidedAgrees(req, w);
    assert SortedByLookup(req, w.status, w.storage, false) == w.status.(history := Sorted(w.status.history));
  }

  /** The release is gone, and can be installed. */
  ghost predicate Gone(req: Request, w: World) {
    && Agrees(req, w) && !D.Exceeded(req.spec.installRemediation.retries, w.status.installFailures)
    && var last := Last(w.storage, req.spec.name);
       last.None? || last.value.status == Uninstalled
  }

  lemma DoomedIsGone(req: Request, w: World, env: nat -> Turn)
    requires Doomed(req, w) && Calm(env(0)) && AllWork(req, Reconcile(req, w, env).events)
    ensures var o := Reconcile(req, w, env);
            && o.events != [] && o.events[0].ran == Some(UninstallRemediation) && Gone(req, o.world)
            && o.world == o.events[0].after && |o.events| == 1
  {
    DoomedDecides(req, w, env(0));
    FirstRuns(req, w, [], env, 0, Failed);
    FirstWorks(req, Reconcile(req, w, env), UninstallRemediation);
    RemediationEnds(req, w, [], env, 0);
    var (d, e) := Decided(req, w, Failed, env(0));
    UninstallAgrees(req, e.decided, env(0).helm);
    UninstallKeepsCounters(req, e.decided, env(0).helm);
    UninstallIsAlone(req, w, env);
  }

  lemma UninstallIsAlone(req: Request, w: World, env: nat -> Turn)
    requires Calm(env(0)) && Determine(req, w.status, w.storage, false, env(0).diff) == Some(Failed)
    requires var (d, e) := Decided(req, w, Failed, env(0));
             d.next == Run(UninstallRemediation) && ActiveRemediation(req, d.status).Some?
    ensures var o := Reconcile(req, w, env);
            |o.events| == 1 && o.world == o.events[0].after
  {
    var (d, e) := Decided(req, w, Failed, env(0));
    assert Turning(req, w, [], env(0)) == Proceed(req, d, e, [], env(0));
    ProceedRuns(req, d, e, [], env(0));
  }

  lemma GoneInstalls(req: Request, w: World, a: Attempt)
    requires Gone(req, w) && Prepare(req, w.status) == w.status && !req.spec.testEnable && LeftAlone(req, w, a)
    ensures Synced(Attempted(w, a)) && Attempted(w, a).events[0].ran == Some(Install)
  {
    var w' := World(Prepare(req, w.status), w.storage);
    assert w' == w;
    if w.status.history != [] && Last(w.storage, req.spec.name).Some? {
      MatchesVerifies(Latest(w.status.history).value, Last(w.storage, req.spec.name).value);
    }
    var st := SortedByLookup(req, w.status, w.storage, false);
    D.OtherDecidesExactly(req, st, w.storage, Absent, false, Run(Install));
    D.OtherDecidesExactly(req, st, w.storage, Absent, false, Fail(ExceededMaxRetries));
    FirstRuns(req, w, [], a.env, 0, Absent);
    ReleaseSyncs(req, w, [], a.env, 0, Absent);
  }

  /** An upgrade whose failures are remediated by uninstalling is uninstalled, even
      if it has used up its retries; unless that fails, another round is asked
      for, and the next attempt installs the release and ends in sync. */
  lemma UninstalledIsInstalled(req: Request, w: World, first: Attempt, second: Attempt)
    requires Doomed(req, w) && !req.spec.testEnable && LeftAlone(req, w, first) && LeftAlone(req, Survives(w, first), second)
    ensures var o := Attempted(w, first);
            && |o.events| == 1 && o.events[0].ran == Some(UninstallRemediation)
            && (Outcomes.CameOff(req, o.events[0]) ==> o.result == Failure(MustRequeue))
    ensures var o := Attempted(Survives(w, first), second);
            Synced(o) && o.events[0].ran == Some(Install)
  {
    PrepareSettles(req, w.status);
    assert World(Prepare(req, w.status), w.storage) == w;
    DoomedIsGone(req, w, first.env);
    var o := Attempted(w, first);
    DoomedAnswer(req, w, first.env);
    AttemptSettled(w, first);
    PrepareSettles(req, Survives(w, first).status);
    GoneHandled(req, o.world);
    GoneInstalls(req, Survives(w, first), second);
  }

  lemma GoneHandled(req: Request, w: World)
    requires Gone(req, w)
    ensures Gone(req, World(Handled(req, w.status), w.storage))
  {
  }

  lemma DoomedAnswer(req: Request, w: World, env: nat -> Turn)
    requires Doomed(req, w) && Calm(env(0)) && AllWork(req, Reconcile(req, w, env).events)
    ensures var o := Reconcile(req, w, env);
            && |o.events| == 1
            && (Outcomes.CameOff(req, o.events[0]) ==> o.result == Failure(MustRequeue))
  {
    DoomedIsGone(req, w, env);
    var e := Reconcile(req, w, env).events[0];
    if Outcomes.CameOff(req, e) {
      Outcomes.RemediedReports(req, w, env, e);
      RunLinked(req, w, [], env, 0);
      EventFrame(req, w, e);
      Outcomes.RemediationCounts(req, UninstallRemediation, e.decided, e.turn.actionDown, e.turn.helm);
    }
  }
}
